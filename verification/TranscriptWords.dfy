/**
 * Which queries a search of stored transcripts answers by what was said. The
 * text searched is JSON, where some characters stand behind a backslash.
 */
module TranscriptWords {
  import opened Common
  import opened Json
  import opened SearchIndex
  import opened TranscriptText
  import Strings

  /** Case folding moves letters to letters and nothing else; all characters beyond ASCII count as letters. */
  predicate IsLetter(c: char) {
    'a' <= c <= 'z' || 'A' <= c <= 'Z' || c as int >= 128
  }

  ghost predicate Ordinary(fold: Fold) {
    forall c: char :: if IsLetter(c) then IsLetter(fold(c)) else fold(c) == c
  }

  /** Some segment says the query. */
  ghost predicate Said(fold: Fold, query: string, segments: seq<Segment>) {
    exists i :: 0 <= i < |segments| && Occurs(fold, query, segments[i].text)
  }

  /** The search finds the query in the stored text. */
  ghost predicate Found(fold: Fold, query: string, segments: seq<Segment>) {
    Occurs(fold, query, StoredText(segments))
  }

  /** Whoever says the query is found. */
  ghost predicate AlwaysFound(fold: Fold, query: string) {
    forall segments :: Said(fold, query, segments) ==> Found(fold, query, segments)
  }

  // ------------------------------------------------------------- the condition

  predicate AllSlashes(s: string) {
    forall i :: 0 <= i < |s| ==> s[i] == '\\'
  }

  /** Characters that are not escaped, and backslashes after them. */
  predicate PlainThenSlashes(s: string) {
    s == "" || (if s[0] == '\\' then AllSlashes(s) else !IsEscaped(s[0]) && PlainThenSlashes(s[1..]))
  }

  /**
   * The query still reads the same inside its own escaped form: backslashes,
   * then at most one quote, then characters that are not escaped, then
   * backslashes, and no control character.
   */
  predicate EscapingKeeps(query: string) {
    query == "" ||
    if query[0] == '\\' then EscapingKeeps(query[1..]) else !IsControl(query[0]) && PlainThenSlashes(query[1..])
  }

  /** The query stands in the punctuation and field names that every stored segment has. */
  ghost predicate InFrame(fold: Fold, query: string) {
    || Occurs(fold, query, "[" + BEFORE_END) || Occurs(fold, query, BEFORE_TEXT)
    || Occurs(fold, query, AFTER_TEXT) || Occurs(fold, query, "}]")
  }

  // ----------------------------------------------------- occurrences in pieces

  lemma OccursAround(fold: Fold, query: string, a: string, b: string, c: string)
    requires Occurs(fold, query, b)
    ensures Occurs(fold, query, a + b + c)
  {
    var i :| 0 <= i <= |b| && StartsWith(fold, b[i..], query);
    var s := a + b + c;
    assert s[|a| + i..][..|query|] == b[i..][..|query|];
    assert StartsWith(fold, s[|a| + i..], query);
  }

  lemma EscapeOf(c: char, rest: string)
    ensures Escape([c] + rest) == EscapeChar(c) + Escape(rest) && Escape("") == ""
  {
    hide EscapeChar;
    assert ([c] + rest)[1..] == rest;
  }

  /** The first character of a text, escaped. */
  lemma EscapeFirst(s: string)
    requires s != "" && !IsControl(s[0])
    ensures var rest := Escape(s[1..]);
            Escape(s) == if s[0] == '\\' then ['\\'] + (['\\'] + rest)
                         else if s[0] == '"' then ['\\'] + (['"'] + rest)
                         else [s[0]] + rest
  {
    hide Escape;
    assert s == [s[0]] + s[1..];
    EscapeOf(s[0], s[1..]);
  }

  lemma {:induction false} EscapeConcat(a: string, b: string)
    ensures Escape(a + b) == Escape(a) + Escape(b)
  {
    hide EscapeChar, Escape;
    if a == "" {
      EscapeOf('a', "");
      assert a + b == b;
    } else {
      EscapeConcat(a[1..], b);
      EscapeOf(a[0], a[1..] + b);
      EscapeOf(a[0], a[1..]);
      assert a == [a[0]] + a[1..] && a + b == [a[0]] + (a[1..] + b);
    }
  }

  // ------------------------------------------------- escaping keeps such queries

  lemma {:induction false} PlainThenSlashesKept(s: string)
    requires PlainThenSlashes(s)
    ensures s <= Escape(s)
  {
    if s != "" {
      if s[0] == '\\' {
        assert forall i :: 0 <= i < |s[1..]| ==> s[1..][i] == s[i + 1];
        SlashesDoubled(s);
      } else {
        PlainThenSlashesKept(s[1..]);
        assert s == [s[0]] + s[1..];
      }
    }
  }

  lemma {:induction false} SlashesDoubled(s: string)
    requires AllSlashes(s)
    ensures |Escape(s)| == 2 * |s| && AllSlashes(Escape(s))
  {
    if s != "" {
      assert forall i :: 0 <= i < |s[1..]| ==> s[1..][i] == s[i + 1];
      SlashesDoubled(s[1..]);
      assert EscapeChar('\\') == "\\\\";
    }
  }

  /** Such a query stands in its escaped form, right behind backslashes. */
  lemma {:induction false} KeptAt(query: string) returns (at: nat)
    requires EscapingKeeps(query)
    ensures at <= |Escape(query)| && query <= Escape(query)[at..] && AllSlashes(Escape(query)[..at])
  {
    hide Escape, PlainThenSlashes;
    at := 0;
    if query != "" {
      var rest, e := query[1..], Escape(query);
      assert query == [query[0]] + rest;
      EscapeFirst(query);
      if query[0] == '\\' {
        var d := KeptAt(rest);
        at := KeptBehindSlash(rest, Escape(rest), d);
      } else {
        PlainThenSlashesKept(rest);
        if query[0] == '"' {
          at := 1;
          assert e[1..] == ['"'] + Escape(rest);
        }
      }
    }
  }

  lemma KeptBehindSlash(s: string, e: string, d: nat) returns (at: nat)
    requires d <= |e| && s <= e[d..] && AllSlashes(e[..d])
    ensures var more := ['\\'] + (['\\'] + e);
            at <= |more| && ['\\'] + s <= more[at..] && AllSlashes(more[..at])
  {
    at := d + 1;
    var more := ['\\'] + (['\\'] + e);
    assert forall i :: 0 <= i < d ==> more[i + 2] == e[..d][i];
    assert more[at..] == ['\\'] + e[d..];
  }

  lemma {:induction false} FoldKeepsShape(fold: Fold, s: string, t: string)
    requires Ordinary(fold) && SameFolded(fold, s, t)
    ensures PlainThenSlashes(s) <==> PlainThenSlashes(t)
    ensures AllSlashes(s) <==> AllSlashes(t)
    ensures EscapingKeeps(s) <==> EscapingKeeps(t)
  {
    if s != "" {
      FoldKeepsShape(fold, s[1..], t[1..]);
      FoldKeepsClass(fold, s[0], t[0]);
      assert forall i :: 0 <= i < |s| ==> ((s[i] == '\\') <==> (t[i] == '\\')) by {
        forall i | 0 <= i < |s|
          ensures (s[i] == '\\') <==> (t[i] == '\\')
        {
          FoldKeepsClass(fold, s[i], t[i]);
        }
      }
    }
  }

  lemma FoldKeepsClass(fold: Fold, a: char, b: char)
    requires Ordinary(fold) && fold(a) == fold(b)
    ensures !IsLetter(a) || !IsLetter(b) ==> a == b
  {
  }

  /** A text that says such a query still has it when escaped. */
  lemma KeptInText(fold: Fold, query: string, text: string)
    requires Ordinary(fold) && EscapingKeeps(query) && Occurs(fold, query, text)
    ensures Occurs(fold, query, Escape(text))
  {
    hide Escape, EscapingKeeps;
    var i :| 0 <= i <= |text| && StartsWith(fold, text[i..], query);
    var same, before, after := text[i..][..|query|], text[..i], text[i..][|query|..];
    FoldKeepsShape(fold, same, query);
    var at := KeptAt(same);
    var e := Escape(same);
    assert e[at..][..|same|] == same;
    assert StartsWith(fold, e[at..], query);
    assert Occurs(fold, query, e);
    assert text == before + same + after;
    EscapeConcat(before + same, after);
    EscapeConcat(before, same);
    OccursAround(fold, query, Escape(before), e, Escape(after));
  }

  // --------------------------------------------- escaping loses all the others

  function Slashes(n: nat): (s: string)
    ensures |s| == n && AllSlashes(s)
  {
    seq(n, i => '\\')
  }

  lemma {:induction false} NoControlEscaped(s: string)
    ensures forall i :: 0 <= i < |Escape(s)| ==> !IsControl(Escape(s)[i])
  {
    if s != "" {
      NoControlEscaped(s[1..]);
      assert forall i :: 0 <= i < |EscapeChar(s[0])| ==> !IsControl(EscapeChar(s[0])[i]);
    }
  }

  ghost predicate NoControl(s: string) {
    forall i :: 0 <= i < |s| ==> !IsControl(s[i])
  }

  /** How many characters are not backslashes. */
  function Others(s: string): nat {
    if s == "" then 0 else (if s[0] == '\\' then 0 else 1) + Others(s[1..])
  }

  lemma {:induction false} OthersConcat(a: string, b: string)
    ensures Others(a + b) == Others(a) + Others(b)
  {
    if a == "" {
      assert a + b == b;
    } else {
      OthersConcat(a[1..], b);
      assert (a + b)[1..] == a[1..] + b;
    }
  }

  lemma {:induction false} NoOthers(s: string)
    requires Others(s) == 0
    ensures AllSlashes(s)
  {
    if s != "" {
      NoOthers(s[1..]);
      assert s == [s[0]] + s[1..];
    }
  }

  lemma {:induction false} OthersFolded(fold: Fold, s: string, t: string)
    requires Ordinary(fold) && SameFolded(fold, s, t)
    ensures Others(s) == Others(t)
  {
    if s != "" {
      FoldKeepsClass(fold, s[0], t[0]);
      OthersFolded(fold, s[1..], t[1..]);
    }
  }

  lemma {:induction false} OthersEscaped(s: string)
    requires NoControl(s)
    ensures Others(Escape(s)) == Others(s)
  {
    if s != "" {
      OthersEscaped(s[1..]);
      OthersConcat(EscapeChar(s[0]), Escape(s[1..]));
      if s[0] == '\\' {
        assert EscapeChar(s[0])[1..] == "\\";
        assert Others("\\\\") == 0 by { assert "\\\\"[1..] == "\\" && "\\"[1..] == ""; }
      } else if s[0] == '"' {
        assert EscapeChar(s[0])[1..] == "\"" && "\""[1..] == "";
      } else {
        assert EscapeChar(s[0])[1..] == "";
      }
    }
  }

  lemma DropFirst(fold: Fold, a: char, s: string, b: char, t: string)
    requires Ordinary(fold) && SameFolded(fold, [a] + s, [b] + t)
    ensures SameFolded(fold, s, t) && (!IsLetter(a) || !IsLetter(b) ==> a == b)
  {
    var x, y := [a] + s, [b] + t;
    assert x[0] == a && y[0] == b;
    FoldKeepsClass(fold, a, b);
    forall i | 0 <= i < |s|
      ensures fold(s[i]) == fold(t[i])
    {
      assert x[i + 1] == s[i] && y[i + 1] == t[i];
    }
  }

  lemma FirstSlash(n: nat, t: string)
    requires n > 0
    ensures Slashes(n) + t == ['\\'] + (Slashes(n - 1) + t)
  {
  }

  lemma FirstChar(s: string, t: string)
    requires s != ""
    ensures s + t == [s[0]] + (s[1..] + t) && (NoControl(s) ==> NoControl(s[1..]) && !IsControl(s[0]))
  {
  }

  /** Doubled, and behind one backslash at least, only backslashes read as followed by backslashes. */
  lemma {:induction false} SlashesOnly(fold: Fold, k: nat, s: string, j: nat)
    requires Ordinary(fold) && k > 0 && NoControl(s)
    requires SameFolded(fold, Slashes(k) + Escape(s), s + Slashes(j))
    ensures AllSlashes(s)
    decreases |s|
  {
    hide Escape, Slashes, Ordinary, SameFolded, NoControl;
    if s != "" {
      var rest := s[1..];
      FirstChar(s, Slashes(j));
      FirstSlash(k, Escape(s));
      DropFirst(fold, '\\', Slashes(k - 1) + Escape(s), s[0], rest + Slashes(j));
      EscapeFirst(s);
      FirstSlash(k + 1, Escape(rest));
      FirstSlash(k, ['\\'] + Escape(rest));
      MoreSlashes(k, Escape(rest));
      SlashesOnly(fold, k + 1, rest, j);
      assert forall i :: 0 <= i < |s| ==> s[i] == if i == 0 then s[0] else rest[i - 1];
    }
  }

  lemma MoreSlashes(k: nat, t: string)
    requires k > 0
    ensures Slashes(k - 1) + (['\\'] + (['\\'] + t)) == Slashes(k + 1) + t
  {
  }

  /** Without backslashes in front, only plain characters and final backslashes read so. */
  lemma {:induction false} PlainOnly(fold: Fold, s: string, j: nat)
    requires Ordinary(fold) && NoControl(s)
    requires SameFolded(fold, Escape(s), s + Slashes(j))
    ensures PlainThenSlashes(s)
    decreases |s|
  {
    hide Escape, Slashes, Ordinary, SameFolded, NoControl;
    if s != "" {
      var rest := s[1..];
      FirstChar(s, Slashes(j));
      EscapeFirst(s);
      if s[0] == '\\' {
        DropFirst(fold, '\\', ['\\'] + Escape(rest), s[0], rest + Slashes(j));
        OneSlash(Escape(rest));
        SlashesOnly(fold, 1, rest, j);
        assert forall i :: 0 <= i < |s| ==> s[i] == if i == 0 then s[0] else rest[i - 1];
      } else if s[0] == '"' {
        DropFirst(fold, '\\', ['"'] + Escape(rest), s[0], rest + Slashes(j));
      } else {
        DropFirst(fold, s[0], Escape(rest), s[0], rest + Slashes(j));
        PlainOnly(fold, rest, j);
      }
    }
  }

  lemma OneSlash(t: string)
    ensures Slashes(1) + t == ['\\'] + t && Slashes(0) + t == t
  {
  }

  lemma {:induction false} KeepsOnly(fold: Fold, s: string, i: nat, j: nat)
    requires Ordinary(fold) && NoControl(s)
    requires SameFolded(fold, Escape(s), Slashes(i) + (s + Slashes(j)))
    ensures EscapingKeeps(s)
    decreases |s|
  {
    hide Escape, Slashes, Ordinary, SameFolded, NoControl, PlainThenSlashes;
    if s != "" {
      var rest := s[1..];
      FirstChar(s, Slashes(j));
      EscapeFirst(s);
      if s[0] == '\\' {
        KeepsBehindSlash(fold, Escape(rest), rest, i, j);
        if i > 0 {
          KeepsOnly(fold, rest, i - 1, j);
        } else {
          SlashesOnly(fold, 1, rest, j);
          SlashesKept(rest);
        }
      } else if s[0] == '"' {
        QuoteBehindOne(fold, Escape(rest), rest, i, j);
        PlainOnly(fold, rest, j);
      } else {
        PlainBehindNone(fold, s[0], Escape(rest), rest, i, j);
        PlainOnly(fold, rest, j);
      }
    }
  }

  /** Taking one backslash off the query and its two off the escaped form. */
  lemma KeepsBehindSlash(fold: Fold, escaped: string, rest: string, i: nat, j: nat)
    requires Ordinary(fold)
    requires SameFolded(fold, ['\\'] + (['\\'] + escaped), Slashes(i) + (['\\'] + (rest + Slashes(j))))
    ensures i > 0 ==> SameFolded(fold, escaped, Slashes(i - 1) + (rest + Slashes(j)))
    ensures i == 0 ==> SameFolded(fold, Slashes(1) + escaped, rest + Slashes(j))
  {
    hide Ordinary, SameFolded;
    var tail := rest + Slashes(j);
    if i == 0 {
      OneSlash(['\\'] + tail);
      OneSlash(escaped);
      DropFirst(fold, '\\', ['\\'] + escaped, '\\', tail);
    } else {
      assert Slashes(i) + (['\\'] + tail) == ['\\'] + (['\\'] + (Slashes(i - 1) + tail));
      DropFirst(fold, '\\', ['\\'] + escaped, '\\', ['\\'] + (Slashes(i - 1) + tail));
      DropFirst(fold, '\\', escaped, '\\', Slashes(i - 1) + tail);
    }
  }

  /** A plain character stands in the escaped form with no backslash before it. */
  lemma PlainBehindNone(fold: Fold, c: char, escaped: string, rest: string, i: nat, j: nat)
    requires Ordinary(fold) && c != '\\'
    requires SameFolded(fold, [c] + escaped, Slashes(i) + ([c] + (rest + Slashes(j))))
    ensures SameFolded(fold, escaped, rest + Slashes(j))
  {
    hide Ordinary, SameFolded;
    var tail := rest + Slashes(j);
    if i > 0 {
      FirstSlash(i, [c] + tail);
      DropFirst(fold, c, escaped, '\\', Slashes(i - 1) + ([c] + tail));
    } else {
      OneSlash([c] + tail);
      DropFirst(fold, c, escaped, c, tail);
    }
  }

  lemma {:induction false} SlashesKept(s: string)
    requires AllSlashes(s)
    ensures EscapingKeeps(s)
  {
    if s != "" {
      assert forall i :: 0 <= i < |s[1..]| ==> s[1..][i] == s[i + 1];
      SlashesKept(s[1..]);
    }
  }

  /** An escaped quote has exactly one backslash before it. */
  lemma QuoteBehindOne(fold: Fold, escaped: string, rest: string, i: nat, j: nat)
    requires Ordinary(fold)
    requires SameFolded(fold, ['\\'] + (['"'] + escaped), Slashes(i) + (['"'] + (rest + Slashes(j))))
    ensures i == 1 && SameFolded(fold, escaped, rest + Slashes(j))
  {
    hide Ordinary, SameFolded;
    var tail := ['"'] + (rest + Slashes(j));
    if i == 0 {
      OneSlash(tail);
      DropFirst(fold, '\\', ['"'] + escaped, '"', rest + Slashes(j));
    } else {
      FirstSlash(i, tail);
      DropFirst(fold, '\\', ['"'] + escaped, '\\', Slashes(i - 1) + tail);
      if i > 1 {
        FirstSlash(i - 1, tail);
        DropFirst(fold, '"', escaped, '\\', Slashes(i - 2) + tail);
      } else {
        OneSlash(tail);
        DropFirst(fold, '"', escaped, '"', rest + Slashes(j));
      }
    }
  }

  /** A match of the query inside its own escaped form leaves only backslashes around it. */
  lemma OnlySlashesAround(fold: Fold, query: string, before: string, same: string, after: string)
    requires Ordinary(fold) && Escape(query) == before + same + after && SameFolded(fold, same, query)
    ensures NoControl(query) && AllSlashes(before) && AllSlashes(after)
  {
    hide Escape, Others;
    var e := Escape(query);
    NoControlEscaped(query);
    forall k | 0 <= k < |query|
      ensures !IsControl(query[k])
    {
      assert same[k] == e[|before| + k];
      FoldKeepsClass(fold, same[k], query[k]);
    }
    OthersEscaped(query);
    OthersFolded(fold, same, query);
    OthersConcat(before + same, after);
    OthersConcat(before, same);
    NoOthers(before);
    NoOthers(after);
  }

  lemma FoldedAround(fold: Fold, query: string, before: string, same: string, after: string)
    requires SameFolded(fold, same, query) && AllSlashes(before) && AllSlashes(after)
    ensures SameFolded(fold, before + same + after, Slashes(|before|) + (query + Slashes(|after|)))
  {
    var e, target := before + same + after, Slashes(|before|) + (query + Slashes(|after|));
    forall k | 0 <= k < |e|
      ensures fold(e[k]) == fold(target[k])
    {
      if k < |before| {
        assert e[k] == before[k] == '\\' == target[k];
      } else if k < |before| + |query| {
        assert e[k] == same[k - |before|] && target[k] == query[k - |before|];
      } else {
        assert e[k] == after[k - |before| - |query|] == '\\' == target[k];
      }
    }
  }

  /** A query that stands in its own escaped form has the kept shape. */
  lemma OnlyKept(fold: Fold, query: string)
    requires Ordinary(fold) && Occurs(fold, query, Escape(query))
    ensures EscapingKeeps(query)
  {
    hide Escape, Ordinary, SameFolded, AllSlashes, NoControl, PlainThenSlashes;
    var e := Escape(query);
    var i :| 0 <= i <= |e| && StartsWith(fold, e[i..], query);
    var before, same, after := e[..i], e[i..][..|query|], e[i..][|query|..];
    assert e == before + same + after;
    OnlySlashesAround(fold, query, before, same, after);
    FoldedAround(fold, query, before, same, after);
    KeepsOnly(fold, query, |before|, |after|);
  }

  /** Every text that says the query still has it when escaped. */
  ghost predicate SurvivesEscaping(fold: Fold, query: string) {
    forall text :: Occurs(fold, query, text) ==> Occurs(fold, query, Escape(text))
  }

  /** A query survives the escaping of every text that says it exactly when it has the kept shape. */
  lemma SurvivesIffShape(fold: Fold, query: string)
    requires Ordinary(fold)
    ensures SurvivesEscaping(fold, query) <==> EscapingKeeps(query)
  {
    hide Escape, Occurs;
    if EscapingKeeps(query) {
      forall text | Occurs(fold, query, text)
        ensures Occurs(fold, query, Escape(text))
      {
        KeptInText(fold, query, text);
      }
    }
    if SurvivesEscaping(fold, query) {
      OccursInItself(fold, query);
      OnlyKept(fold, query);
    }
  }

  lemma OccursInItself(fold: Fold, query: string)
    ensures Occurs(fold, query, query)
  {
    assert query[0..] == query && query[..|query|] == query;
    assert StartsWith(fold, query[0..], query);
  }

  // --------------------------------------------------------- the stored pieces

  /** The escaped words of every segment stand in the stored text. */
  lemma {:induction false} WordsInTexts(segments: seq<Segment>, i: nat) returns (before: string, after: string)
    requires i < |segments|
    ensures SegmentTexts(segments) == before + Escape(segments[i].text) + after
  {
    hide Escape;
    if i == 0 {
      var s := segments[0];
      before := BEFORE_END + s.end + BEFORE_TEXT;
      after := AFTER_TEXT + s.start + "}" + if |segments| == 1 then "" else ", " + SegmentTexts(segments[1..]);
    } else {
      before, after := WordsInTexts(segments[1..], i - 1);
      before := SegmentText(segments[0]) + ", " + before;
    }
  }

  lemma OccursLeft(fold: Fold, query: string, a: string, b: string)
    requires Occurs(fold, query, a)
    ensures Occurs(fold, query, a + b)
  {
    hide Occurs;
    OccursAround(fold, query, "", a, b);
    assert "" + a + b == a + b;
  }

  lemma OccursRight(fold: Fold, query: string, a: string, b: string)
    requires Occurs(fold, query, b)
    ensures Occurs(fold, query, a + b)
  {
    hide Occurs;
    OccursAround(fold, query, a, b, "");
    assert a + b + "" == a + b;
  }

  function Nested(end: string, words: string, tail: string): string {
    "[" + BEFORE_END + (end + (BEFORE_TEXT + (words + (AFTER_TEXT + tail))))
  }

  lemma Nest(a: string, b: string, c: string, d: string, e: string, f: string, g: string, h: string, i: string, j: string)
    ensures a + (b + c + d + e + f + g + h + i) + j == a + b + (c + (d + (e + (f + (g + (h + (i + j)))))))
  {
    var tail := e + (f + (g + (h + (i + j))));
    assert b + c + d + e + f + g + h + i + j == b + (c + (d + tail));
  }

  lemma NestedIs(end: string, words: string, start: string, more: string)
    ensures "[" + (BEFORE_END + end + BEFORE_TEXT + words + AFTER_TEXT + start + "}" + more) + "]" ==
            Nested(end, words, start + ("}" + (more + "]")))
  {
    Nest("[", BEFORE_END, end, BEFORE_TEXT, words, AFTER_TEXT, start, "}", more, "]");
  }

  /** What follows the first segment in a list. */
  function MoreTexts(segments: seq<Segment>): string
    requires segments != []
  {
    if |segments| == 1 then "" else ", " + SegmentTexts(segments[1..])
  }

  lemma FirstOfTexts(segments: seq<Segment>)
    requires segments != []
    ensures SegmentTexts(segments) == SegmentText(segments[0]) + MoreTexts(segments)
  {
    hide SegmentText;
  }

  /** The stored text from its first segment on. */
  lemma StoredNested(segments: seq<Segment>)
    requires segments != []
    ensures var s := segments[0];
            StoredText(segments) == Nested(s.end, Escape(s.text), s.start + ("}" + (MoreTexts(segments) + "]")))
  {
    hide Escape, Nested, StoredText, SegmentTexts, MoreTexts;
    StoredIs(segments);
    FirstOfTexts(segments);
    var s := segments[0];
    NestedIs(s.end, Escape(s.text), s.start, MoreTexts(segments));
  }

  lemma StoredOne(s: Segment)
    ensures StoredText([s]) == Nested(s.end, Escape(s.text), s.start + "}]")
  {
    hide Escape, Nested, StoredText, SegmentTexts;
    StoredNested([s]);
    assert MoreTexts([s]) == "";
    assert "}" + ("" + "]") == "}]";
  }

  lemma StoredEnds(segments: seq<Segment>) returns (front: string)
    requires segments != []
    ensures StoredText(segments) == front + "}]"
  {
    hide SegmentTexts, StoredText;
    StoredIs(segments);
    TextsEnd(segments);
    var texts := SegmentTexts(segments);
    front := "[" + Front(texts);
    assert texts == Front(texts) + "}";
    assert "}" + "]" == "}]";
  }

  /** Every stored segment has the frame. */
  lemma FrameIsFound(fold: Fold, query: string, segments: seq<Segment>)
    requires InFrame(fold, query) && segments != []
    ensures Found(fold, query, segments)
  {
    hide Escape, Occurs, StoredText, Nested, MoreTexts;
    StoredNested(segments);
    if Occurs(fold, query, "}]") {
      var front := StoredEnds(segments);
      OccursRight(fold, query, front, "}]");
    } else {
      FrameInNested(fold, query, segments[0].end, Escape(segments[0].text),
                    segments[0].start + ("}" + (MoreTexts(segments) + "]")));
    }
  }

  lemma FrameInNested(fold: Fold, query: string, end: string, words: string, tail: string)
    requires Occurs(fold, query, "[" + BEFORE_END) || Occurs(fold, query, BEFORE_TEXT) || Occurs(fold, query, AFTER_TEXT)
    ensures Occurs(fold, query, Nested(end, words, tail))
  {
    hide Occurs;
    var third := AFTER_TEXT + tail;
    var second := BEFORE_TEXT + (words + third);
    if Occurs(fold, query, "[" + BEFORE_END) {
      OccursLeft(fold, query, "[" + BEFORE_END, end + second);
    } else {
      if Occurs(fold, query, BEFORE_TEXT) {
        OccursLeft(fold, query, BEFORE_TEXT, words + third);
      } else {
        OccursLeft(fold, query, AFTER_TEXT, tail);
        OccursRight(fold, query, words, third);
        OccursRight(fold, query, BEFORE_TEXT, words + third);
      }
      OccursRight(fold, query, end, second);
      OccursRight(fold, query, "[" + BEFORE_END, end + second);
    }
  }

  lemma {:induction false} TextsEnd(segments: seq<Segment>)
    requires segments != []
    ensures SegmentTexts(segments) != "" && Last(SegmentTexts(segments)) == '}'
  {
    hide Escape;
    if |segments| > 1 {
      TextsEnd(segments[1..]);
    }
  }

  // ----------------------------------------------------------- a guarded query

  predicate IsFiller(d: char) {
    '1' <= d <= '9'
  }

  /** One digit, repeated: of a positive length, a number. */
  function Filler(d: char, n: nat): (s: string)
    requires IsFiller(d)
    ensures |s| == n && forall i :: 0 <= i < n ==> s[i] == d
  {
    seq(n, i => d)
  }

  lemma {:induction false} DigitsFinish(s: string)
    requires forall i :: 0 <= i < |s| ==> IsFiller(s[i])
    ensures Finishes(Reading.Integer, s)
    decreases |s|
  {
    if s != "" {
      DigitsFinish(s[1..]);
    }
  }

  lemma FillerIsDecimal(d: char, n: nat)
    requires IsFiller(d) && n > 0
    ensures IsDecimal(Filler(d, n))
  {
    DigitsFinish(Filler(d, n)[1..]);
  }

  ghost predicate Guards(fold: Fold, d: char, query: string)
  {
    && IsFiller(d) && query != ""
    && fold(query[0]) != fold(d) && fold(query[|query| - 1]) != fold(d)
  }

  /** A digit that the query neither starts nor ends with. */
  lemma GuardFor(fold: Fold, query: string) returns (d: char)
    requires Ordinary(fold) && query != ""
    ensures Guards(fold, d, query)
  {
    var a, b := fold(query[0]), fold(query[|query| - 1]);
    assert fold('1') == '1' && fold('2') == '2' && fold('3') == '3';
    d := if a != '1' && b != '1' then '1' else if a != '2' && b != '2' then '2' else '3';
  }

  /** The query does not reach into the filler: it stands before it or behind it. */
  lemma BesideFiller(fold: Fold, query: string, d: char, n: nat, a: string, b: string)
    requires Guards(fold, d, query) && n >= |query|
    requires Occurs(fold, query, a + (Filler(d, n) + b))
    ensures Occurs(fold, query, a) || Occurs(fold, query, b)
  {
    var s, last := a + (Filler(d, n) + b), |query| - 1;
    assert forall k :: |a| <= k < |a| + n ==> s[k] == d;
    var i :| 0 <= i <= |s| && StartsWith(fold, s[i..], query);
    var same := s[i..][..|query|];
    assert same[0] == s[i] && same[last] == s[i + last];
    assert fold(same[0]) == fold(query[0]) && fold(same[last]) == fold(query[last]);
    if i < |a| {
      assert a[i..][..|query|] == same;
      assert StartsWith(fold, a[i..], query);
    } else {
      var k := i - |a| - n;
      assert b[k..][..|query|] == same;
      assert StartsWith(fold, b[k..], query);
    }
  }

  /** A segment that says the query between fillers, at times that are fillers too. */
  function Guarded(d: char, query: string): Segment
    requires IsFiller(d) && query != "" && !HasNul(query)
  {
    var filler := Filler(d, |query|);
    FillerIsDecimal(d, |query|);
    Segment(filler, filler, filler + query + filler)
  }

  lemma {:induction false} FillerEscape(d: char, n: nat)
    requires IsFiller(d)
    ensures Escape(Filler(d, n)) == Filler(d, n)
  {
    PlainEscape(Filler(d, n));
  }

  lemma EscapeBetween(f: string, query: string)
    requires Escape(f) == f
    ensures Escape(f + query + f) == f + (Escape(query) + f)
  {
    hide Escape;
    EscapeConcat(f + query, f);
    EscapeConcat(f, query);
    assert f + Escape(query) + f == f + (Escape(query) + f);
  }

  lemma GuardedText(d: char, query: string)
    requires IsFiller(d) && query != "" && !HasNul(query)
    ensures var f := Filler(d, |query|);
            StoredText([Guarded(d, query)]) == Nested(f, f + (Escape(query) + f), f + "}]")
  {
    hide Escape, Filler, Nested, StoredText;
    FillerEscape(d, |query|);
    EscapeBetween(Filler(d, |query|), query);
    StoredOne(Guarded(d, query));
  }

  /** A guarded query that is found is found in its own escaped form or in the frame. */
  lemma GuardedFinds(fold: Fold, query: string, d: char)
    requires Guards(fold, d, query) && !HasNul(query) && Found(fold, query, [Guarded(d, query)])
    ensures Occurs(fold, query, Escape(query)) || InFrame(fold, query)
  {
    hide Escape, Filler, Occurs, Guards, StoredText;
    GuardDigit(fold, query, d);
    GuardedText(d, query);
    GuardedPieces(fold, query, d, Escape(query));
  }

  lemma GuardDigit(fold: Fold, query: string, d: char)
    requires Guards(fold, d, query)
    ensures IsFiller(d) && query != ""
  {
  }

  lemma GuardedPieces(fold: Fold, query: string, d: char, words: string)
    requires Guards(fold, d, query) && IsFiller(d)
    requires var f := Filler(d, |query|); Occurs(fold, query, Nested(f, f + (words + f), f + "}]"))
    ensures Occurs(fold, query, words) || InFrame(fold, query)
  {
    hide Filler, Occurs, Guards;
    var n := |query|;
    var f := Filler(d, n);
    var last := AFTER_TEXT + (f + "}]");
    var second := BEFORE_TEXT + (f + (words + (f + last)));
    assert f + (words + f) + last == f + (words + (f + last));
    BesideFiller(fold, query, d, n, "[" + BEFORE_END, second);
    if Occurs(fold, query, second) {
      BesideFiller(fold, query, d, n, BEFORE_TEXT, words + (f + last));
      if Occurs(fold, query, words + (f + last)) {
        BesideFiller(fold, query, d, n, words, last);
        if Occurs(fold, query, last) {
          BesideFiller(fold, query, d, n, AFTER_TEXT, "}]");
        }
      }
    }
  }

  /** For every other query, a transcript that says it and is not found. */
  lemma MissedWords(fold: Fold, query: string) returns (segments: seq<Segment>)
    requires Ordinary(fold) && !EscapingKeeps(query) && !InFrame(fold, query) && !HasNul(query)
    ensures Said(fold, query, segments) && !Found(fold, query, segments)
  {
    hide Escape, Occurs, InFrame, StoredText, EscapingKeeps, Guarded, Said;
    EmptyIsKept();
    var d := GuardFor(fold, query);
    segments := [Guarded(d, query)];
    GuardedSays(fold, query, d);
    if Found(fold, query, segments) {
      GuardedFinds(fold, query, d);
      OnlyKept(fold, query);
    }
  }

  /**
   * Whoever says the query is found, exactly when the query has the shape that
   * escaping keeps or stands in the frame of every stored segment, or has the
   * character NUL, which no segment can say.
   */
  lemma AlwaysFoundIff(fold: Fold, query: string)
    requires Ordinary(fold)
    ensures AlwaysFound(fold, query) <==> EscapingKeeps(query) || InFrame(fold, query) || HasNul(query)
  {
    hide Said, Found, InFrame, EscapingKeeps;
    if HasNul(query) {
      NulIsNotSaid(fold, query);
    } else if EscapingKeeps(query) || InFrame(fold, query) {
      forall segments | Said(fold, query, segments)
        ensures Found(fold, query, segments)
      {
        SaidIsFound(fold, query, segments);
      }
    } else {
      var segments := MissedWords(fold, query);
      assert Said(fold, query, segments) && !Found(fold, query, segments);
    }
  }

  lemma NulIsNotSaid(fold: Fold, query: string)
    requires Ordinary(fold) && HasNul(query)
    ensures forall segments :: !Said(fold, query, segments)
  {
    forall text: Utterance
      ensures !Occurs(fold, query, text)
    {
      NulIsNotIn(fold, query, text);
    }
  }

  lemma NulIsNotIn(fold: Fold, query: string, text: Utterance)
    requires Ordinary(fold) && HasNul(query)
    ensures !Occurs(fold, query, text)
  {
    var k :| 0 <= k < |query| && query[k] == NUL;
    forall i | 0 <= i <= |text|
      ensures !StartsWith(fold, text[i..], query)
    {
      if i + k < |text| && |query| <= |text| - i {
        assert text[i..][..|query|][k] == text[i + k];
        FoldSeparates(fold, text[i + k], NUL);
      }
    }
  }

  lemma EmptyIsKept()
    ensures EscapingKeeps("")
  {
  }

  lemma GuardedSays(fold: Fold, query: string, d: char)
    requires IsFiller(d) && query != "" && !HasNul(query)
    ensures Said(fold, query, [Guarded(d, query)])
  {
    var f := Filler(d, |query|);
    OccursInItself(fold, query);
    OccursAround(fold, query, f, query, f);
    assert [Guarded(d, query)][0].text == f + query + f;
  }

  /** What stands in the escaped words of a segment stands in the stored text. */
  lemma EscapedIsFound(fold: Fold, query: string, segments: seq<Segment>, i: nat)
    requires i < |segments| && Occurs(fold, query, Escape(segments[i].text))
    ensures Found(fold, query, segments)
  {
    hide Escape, Occurs, StoredText, SegmentTexts;
    var words := Escape(segments[i].text);
    var before, after := WordsInTexts(segments, i);
    StoredIs(segments);
    OccursAround(fold, query, "[" + before, words, after + "]");
    assert "[" + (before + words + after) + "]" == ("[" + before) + words + (after + "]");
  }

  lemma SaidIsFound(fold: Fold, query: string, segments: seq<Segment>)
    requires Ordinary(fold) && Said(fold, query, segments) && (EscapingKeeps(query) || InFrame(fold, query))
    ensures Found(fold, query, segments)
  {
    hide Escape, Occurs, InFrame, StoredText, EscapingKeeps;
    var i :| 0 <= i < |segments| && Occurs(fold, query, segments[i].text);
    if InFrame(fold, query) {
      FrameIsFound(fold, query, segments);
    } else {
      KeptInText(fold, query, segments[i].text);
      EscapedIsFound(fold, query, segments, i);
    }
  }

  /** Words free of characters that JSON escapes are always found when they are said. */
  lemma {:induction false} PlainIsKept(query: string)
    requires forall i :: 0 <= i < |query| ==> !IsEscaped(query[i])
    ensures EscapingKeeps(query) && PlainThenSlashes(query)
  {
    if query != "" {
      PlainIsKept(query[1..]);
    }
  }

  /** Words in quotation marks are not found where they are said. */
  lemma QuotedWordsAreMissed(fold: Fold)
    requires Ordinary(fold)
    ensures !AlwaysFound(fold, "\"hi\"")
  {
    var query := "\"hi\"";
    hide InFrame, AlwaysFound;
    assert !HasNul(query);
    assert query[1..] == "hi\"" && "hi\""[1..] == "i\"" && "i\""[1..] == "\"";
    assert !PlainThenSlashes("\"") && !PlainThenSlashes("i\"") && !PlainThenSlashes("hi\"");
    assert !EscapingKeeps(query);
    NotInFrame(fold, query);
    AlwaysFoundIff(fold, query);
  }

  lemma FoldSeparates(fold: Fold, a: char, b: char)
    requires Ordinary(fold) && a != b && (!IsLetter(a) || !IsLetter(b))
    ensures fold(a) != fold(b)
  {
  }

  /** No two quotes of the text stand three apart with a letter behind the first. */
  predicate NoShortName(text: string) {
    forall i :: 0 <= i && i + 3 < |text| ==> text[i] != '"' || text[i + 3] != '"' || !IsLetter(text[i + 1])
  }

  lemma NotInPiece(fold: Fold, query: string, text: string)
    requires Ordinary(fold) && query == "\"hi\"" && NoShortName(text)
    ensures !Occurs(fold, query, text)
  {
    forall i | 0 <= i <= |text|
      ensures !StartsWith(fold, text[i..], query)
    {
      if i + 3 < |text| {
        var same := text[i..][..4];
        assert same[0] == text[i] && same[1] == text[i + 1] && same[3] == text[i + 3];
        if text[i] != '"' {
          FoldSeparates(fold, same[0], '"');
        } else if text[i + 3] != '"' {
          FoldSeparates(fold, same[3], '"');
        } else {
          FoldSeparates(fold, same[1], 'h');
        }
      }
    }
  }

  lemma NotInFrame(fold: Fold, query: string)
    requires Ordinary(fold) && query == "\"hi\""
    ensures !InFrame(fold, query)
  {
    hide Occurs;
    NotInPiece(fold, query, "[" + BEFORE_END);
    NotInPiece(fold, query, BEFORE_TEXT);
    NotInPiece(fold, query, AFTER_TEXT);
    NotInPiece(fold, query, "}]");
  }
}
