/**
 * Which queries a search of stored transcripts can answer by something nobody
 * said: a letter that JSON writes for a control character, a field name, a time,
 * or punctuation between them. A query is read from left to right as a stretch
 * of some stored text.
 */
module UnsaidHits {
  import opened Common
  import opened Json
  import opened SearchIndex
  import opened TranscriptText
  import opened TranscriptWords
  import Strings

  /** Some transcript that does not say the query is found. */
  ghost predicate FoundUnsaid(fold: Fold, query: string) {
    exists segments :: Found(fold, query, segments) && !Said(fold, query, segments)
  }

  // ------------------------------------------------------------- the condition

  /** Where in a stored list a reader stands: so far into a time, in words, or at the end. */
  datatype Place = EndTime(read: Reading) | Words | StartTime(read: Reading) | Nowhere

  /** The characters that stand behind a backslash in stored words. */
  predicate IsStoredEscape(c: char) {
    IsEscaped(c) && c != NUL
  }

  predicate IsStoredControl(c: char) {
    IsControl(c) && c != NUL
  }

  const NEXT_SEGMENT := "}, " + BEFORE_END

  /** The query can be read as `literal` and what a stored list may have from the place behind it. */
  ghost predicate Reads(fold: Fold, query: string, literal: string, place: Place)
    decreases |query|, if literal == "" then 1 else 0
  {
    query == "" ||
    if literal != "" then fold(query[0]) == fold(literal[0]) && Reads(fold, query[1..], literal[1..], place)
    else match place
      case EndTime(p) =>
        || (Next(p, query[0]).Some? && Reads(fold, query[1..], "", EndTime(Next(p, query[0]).value)))
        || (Whole(p) && Reads(fold, query, BEFORE_TEXT, Words))
      case Words =>
        || (!IsEscaped(query[0]) && Reads(fold, query[1..], "", Words))
        || (exists c :: IsStoredEscape(c) && Reads(fold, query, EscapeChar(c), Words))
        || Reads(fold, query, AFTER_TEXT, StartTime(Reading.Nothing))
      case StartTime(p) =>
        || (Next(p, query[0]).Some? && Reads(fold, query[1..], "", StartTime(Next(p, query[0]).value)))
        || (Whole(p) && (Reads(fold, query, "}]", Nowhere) || Reads(fold, query, NEXT_SEGMENT, EndTime(Reading.Nothing))))
      case Nowhere => false
  }

  predicate IsSuffix(s: string, text: string) {
    |s| <= |text| && text[|text| - |s|..] == s
  }

  /** A place outside the words of a segment, or behind the backslash of an escaped control character. */
  ghost predicate Outside(literal: string, place: Place) {
    match place
    case EndTime(p) =>
      if p != Reading.Nothing then literal == "" else IsSuffix(literal, "[" + BEFORE_END) || IsSuffix(literal, NEXT_SEGMENT)
    case Words => literal != "" && (IsSuffix(literal, BEFORE_TEXT) || exists c :: IsStoredControl(c) && IsSuffix(literal, EscapeTail(c)))
    case StartTime(p) => if p != Reading.Nothing then literal == "" else IsSuffix(literal, AFTER_TEXT)
    case Nowhere => IsSuffix(literal, "[]") || IsSuffix(literal, "}]")
  }

  predicate Plain(s: string) {
    forall i :: 0 <= i < |s| ==> !IsEscaped(s[i])
  }

  /**
   * The query reads as a stretch of a stored list that starts outside the words,
   * or in words with an escaped character or their end in it.
   */
  ghost predicate ReadsUnsaid(fold: Fold, query: string) {
    || (exists literal, place :: Outside(literal, place) && Reads(fold, query, literal, place))
    || (!Plain(query) && Reads(fold, query, "", Words))
    || (query != "" && (query[0] == '"' || query[0] == '\\') && !Plain(query[1..]) && Reads(fold, query[1..], "", Words))
  }

  // ------------------------------------------------- a stored list from a place on

  /** From the end time of a segment on. */
  function FromEnd(end: string, words: string, start: string, after: string): string {
    end + (BEFORE_TEXT + FromWords(words, start, after))
  }

  function FromWords(words: string, start: string, after: string): string {
    Escape(words) + (AFTER_TEXT + (start + after))
  }

  /** What follows the start time of a segment. */
  function AfterStart(more: seq<Segment>): string {
    if more == [] then "}]"
    else NEXT_SEGMENT + FromEnd(more[0].end, more[0].text, more[0].start, AfterStart(more[1..]))
  }

  /** What is left of a segment, and the segments behind it. */
  datatype Rest = Rest(end: string, words: Utterance, start: string, more: seq<Segment>)

  function RestText(place: Place, r: Rest): string {
    match place
    case EndTime(_) => FromEnd(r.end, r.words, r.start, AfterStart(r.more))
    case Words => FromWords(r.words, r.start, AfterStart(r.more))
    case StartTime(_) => r.start + AfterStart(r.more)
    case Nowhere => ""
  }

  predicate Possible(place: Place, r: Rest) {
    match place
    case EndTime(p) => Finishes(p, r.end) && IsDecimal(r.start)
    case Words => IsDecimal(r.start)
    case StartTime(p) => Finishes(p, r.start)
    case Nowhere => true
  }

  function RestOf(segments: seq<Segment>): Rest
    requires segments != []
  {
    Rest(segments[0].end, segments[0].text, segments[0].start, segments[1..])
  }

  lemma Cancel(a: string, b: string, c: string)
    requires "[" + a == "[" + b + c
    ensures "}" + (", " + a) == "}, " + b + c
  {
    assert ("[" + a)[1..] == a && ("[" + b + c)[1..] == b + c;
    assert "}" + (", " + (b + c)) == "}, " + b + c;
  }

  lemma {:induction false} StoredFrom(segments: seq<Segment>)
    requires segments != []
    ensures StoredText(segments) == "[" + BEFORE_END + RestText(EndTime(Reading.Nothing), RestOf(segments))
    decreases |segments|
  {
    hide Escape, StoredText, SegmentTexts;
    StoredNested(segments);
    var rest := segments[1..];
    if rest != [] {
      StoredFrom(rest);
      StoredIs(rest);
      Cancel(SegmentTexts(rest) + "]", BEFORE_END, RestText(EndTime(Reading.Nothing), RestOf(rest)));
      assert "}" + (", " + SegmentTexts(rest) + "]") == "}" + (", " + (SegmentTexts(rest) + "]"));
    } else {
      assert "}" + ("" + "]") == "}]";
    }
  }

  // ------------------------------------------------ what is found can be read so

  lemma Behind(fold: Fold, query: string, literal: string, text: string)
    requires StartsWith(fold, literal + text, query) && query != "" && literal != ""
    ensures fold(query[0]) == fold(literal[0]) && StartsWith(fold, literal[1..] + text, query[1..])
  {
    var s := literal + text;
    assert s[1..] == literal[1..] + text;
    StartsWithStep(fold, query, s);
  }

  /** What stands at the start of a text can be read from its place. */
  lemma {:induction false} ReadsText(fold: Fold, query: string, literal: string, place: Place, r: Rest)
    requires Ordinary(fold) && Possible(place, r) && StartsWith(fold, literal + RestText(place, r), query)
    ensures Reads(fold, query, literal, place)
    decreases |query|, if literal == "" then 2 else 0
  {
    hide Ordinary, Escape, EscapeChar, Finishes, StartsWith, AfterStart, IsDecimalChar, IsEscaped;
    if query != "" {
      if literal != "" {
        Behind(fold, query, literal, RestText(place, r));
        ReadsText(fold, query[1..], literal[1..], place, r);
      } else {
        assert literal + RestText(place, r) == RestText(place, r);
        match place
        case EndTime(p) => ReadsEndTime(fold, query, p, r);
        case Words => ReadsWords(fold, query, r);
        case StartTime(p) => ReadsStartTime(fold, query, p, r);
        case Nowhere => NothingStarts(fold, query);
      }
    }
  }

  lemma NothingStarts(fold: Fold, query: string)
    requires StartsWith(fold, "", query)
    ensures query == ""
  {
  }

  lemma TimeGoesOn(s: string, p: Reading)
    requires Finishes(p, s) && s != ""
    ensures Next(p, s[0]).Some? && Finishes(Next(p, s[0]).value, s[1..]) && IsDecimalChar(s[0])
  {
  }

  lemma TimeEnds(p: Reading)
    requires Finishes(p, "")
    ensures Whole(p)
  {
  }

  /** A character of a time or of words that are not escaped is no other character when folded. */
  lemma FoldKeepsTime(fold: Fold, a: char, b: char)
    requires Ordinary(fold) && fold(a) == fold(b)
    ensures IsDecimalChar(a) || IsEscaped(a) ==> a == b
    ensures IsEscaped(b) ==> a == b
  {
    FoldKeepsClass(fold, a, b);
  }

  lemma ReadsEndTime(fold: Fold, query: string, p: Reading, r: Rest)
    requires Ordinary(fold) && Possible(EndTime(p), r) && StartsWith(fold, RestText(EndTime(p), r), query) && query != ""
    ensures Reads(fold, query, "", EndTime(p))
    decreases |query|, 1
  {
    hide Ordinary, Escape, EscapeChar, StartsWith, AfterStart, IsDecimalChar, IsEscaped, Next, Finishes, FromWords;
    if r.end == "" {
      TimeEnds(p);
      assert "" + (BEFORE_TEXT + RestText(Words, r)) == BEFORE_TEXT + RestText(Words, r);
      ReadsText(fold, query, BEFORE_TEXT, Words, r);
    } else {
      TimeGoesOn(r.end, p);
      var after := BEFORE_TEXT + RestText(Words, r);
      Behind(fold, query, r.end, after);
      FoldKeepsTime(fold, r.end[0], query[0]);
      assert "" + (r.end[1..] + after) == r.end[1..] + after;
      ReadsText(fold, query[1..], "", EndTime(Next(p, r.end[0]).value), r.(end := r.end[1..]));
    }
  }

  lemma ReadsWords(fold: Fold, query: string, r: Rest)
    requires Ordinary(fold) && Possible(Words, r) && StartsWith(fold, RestText(Words, r), query) && query != ""
    ensures Reads(fold, query, "", Words)
    decreases |query|, 1
  {
    hide Ordinary, Escape, EscapeChar, Finishes, StartsWith, AfterStart, IsEscaped;
    var after := AFTER_TEXT + RestText(StartTime(Reading.Nothing), r);
    if r.words == "" {
      EscapeOf('a', "");
      assert "" + after == after;
      ReadsText(fold, query, AFTER_TEXT, StartTime(Reading.Nothing), r);
    } else {
      var c, rest := r.words[0], r.(words := r.words[1..]);
      assert r.words == [c] + rest.words;
      EscapeOf(c, rest.words);
      assert EscapeChar(c) + Escape(rest.words) + after == EscapeChar(c) + RestText(Words, rest);
      PlainChar(c);
      if IsEscaped(c) {
        ReadsText(fold, query, EscapeChar(c), Words, rest);
      } else {
        Behind(fold, query, [c], RestText(Words, rest));
        FoldKeepsTime(fold, c, query[0]);
        ReadsText(fold, query[1..], "", Words, rest);
      }
    }
  }

  lemma PlainChar(c: char)
    ensures !IsEscaped(c) ==> EscapeChar(c) == [c]
    ensures IsEscaped(c) ==> EscapeChar(c) == ['\\'] + EscapeTail(c)
  {
  }

  lemma ReadsStartTime(fold: Fold, query: string, p: Reading, r: Rest)
    requires Ordinary(fold) && Possible(StartTime(p), r)
    requires StartsWith(fold, RestText(StartTime(p), r), query) && query != ""
    ensures Reads(fold, query, "", StartTime(p))
    decreases |query|, 1
  {
    hide Ordinary, Escape, EscapeChar, StartsWith, IsDecimalChar, IsEscaped, Next, Finishes, FromEnd;
    if r.start == "" {
      TimeEnds(p);
      assert "" + AfterStart(r.more) == AfterStart(r.more);
      if r.more == [] {
        assert "}]" + "" == "}]";
        ReadsText(fold, query, "}]", Nowhere, r);
      } else {
        ReadsText(fold, query, NEXT_SEGMENT, EndTime(Reading.Nothing), RestOf(r.more));
      }
    } else {
      TimeGoesOn(r.start, p);
      Behind(fold, query, r.start, AfterStart(r.more));
      FoldKeepsTime(fold, r.start[0], query[0]);
      assert "" + (r.start[1..] + AfterStart(r.more)) == r.start[1..] + AfterStart(r.more);
      ReadsText(fold, query[1..], "", StartTime(Next(p, r.start[0]).value), r.(start := r.start[1..]));
    }
  }

  // ------------------------------------------- every position is at some place

  /** Behind the literal stand the last words of a segment, and a character escaped in it before them. */
  predicate InsideWords(literal: string, words: string, text: string) {
    || (literal == "" && IsSuffix(words, text))
    || ((literal == "\"" || literal == "\\") && IsSuffix(literal + words, text))
  }

  ghost predicate At(literal: string, place: Place, r: Rest, segments: seq<Segment>) {
    && Possible(place, r)
    && (Outside(literal, place) ||
        (place.Words? && exists i :: 0 <= i < |segments| && InsideWords(literal, r.words, segments[i].text)))
  }

  lemma AtLater(literal: string, place: Place, r: Rest, s: Segment, segments: seq<Segment>)
    requires At(literal, place, r, segments)
    ensures At(literal, place, r, [s] + segments)
  {
    hide Outside, InsideWords, Possible;
    if !Outside(literal, place) {
      var i :| 0 <= i < |segments| && InsideWords(literal, r.words, segments[i].text);
      assert ([s] + segments)[i + 1] == segments[i];
    }
  }

  /** A position in a literal or behind it. */
  lemma Cut(a: string, b: string, p: nat)
    requires p <= |a| + |b|
    ensures p <= |a| ==> (a + b)[p..] == a[p..] + b && IsSuffix(a[p..], a)
    ensures p >= |a| ==> (a + b)[p..] == b[p - |a|..]
  {
  }

  lemma {:induction false} InEscaped(words: string, p: nat) returns (tail: string, k: nat)
    requires p <= |Escape(words)|
    ensures k <= |words| && Escape(words)[p..] == tail + Escape(words[k..])
    ensures tail != "" ==> k > 0 && IsEscaped(words[k - 1]) && IsSuffix(tail, EscapeTail(words[k - 1]))
  {
    hide EscapeTail;
    if p == 0 {
      tail, k := "", 0;
      assert words[0..] == words;
      assert Escape(words)[0..] == Escape(words);
    } else {
      var first := EscapeChar(words[0]);
      Cut(first, Escape(words[1..]), p);
      if p < |first| {
        tail, k := first[p..], 1;
      } else {
        tail, k := InEscaped(words[1..], p - |first|);
        k := k + 1;
        assert words[1..][k - 1..] == words[k..];
      }
    }
  }

  /** In the words of the first segment. */
  lemma PlaceInWords(segments: seq<Segment>, p: nat) returns (literal: string, r: Rest)
    requires segments != [] && p <= |Escape(segments[0].text)|
    ensures At(literal, Words, r, segments)
    ensures Escape(segments[0].text)[p..] == literal + Escape(r.words)
    ensures r.start == segments[0].start && r.more == segments[1..]
  {
    hide Escape, EscapeTail, Finishes;
    var words, k := segments[0].text, 0;
    literal, k := InEscaped(words, p);
    r := RestOf(segments).(words := words[k..]);
    if literal != "" {
      if !IsControl(words[k - 1]) {
        OwnTail(words[k - 1], literal);
        assert literal + r.words == words[k - 1..];
      }
    }
    assert Outside(literal, Words) || InsideWords(literal, r.words, segments[0].text);
  }

  lemma OwnTail(c: char, tail: string)
    requires (c == '"' || c == '\\') && tail != "" && IsSuffix(tail, EscapeTail(c))
    ensures tail == [c] && (tail == "\"" || tail == "\\")
  {
  }

  lemma {:induction false} PlaceAfterEnd(segments: seq<Segment>, p: nat) returns (literal: string, place: Place, r: Rest)
    requires segments != [] && p <= |RestText(EndTime(Reading.Nothing), RestOf(segments))|
    ensures At(literal, place, r, segments)
    ensures RestText(EndTime(Reading.Nothing), RestOf(segments))[p..] == literal + RestText(place, r)
    decreases |segments|, 2
  {
    hide Escape, EscapeTail, Finishes, At, AfterStart;
    var s, after := segments[0], AfterStart(segments[1..]);
    r := RestOf(segments);
    Cut(s.end, BEFORE_TEXT + FromWords(s.text, s.start, after), p);
    if p <= |s.end| {
      var read := ReadSoFar(s.end, p);
      literal, place, r := "", EndTime(read), r.(end := s.end[p..]);
      TimeIsPlace(segments, s.end[p..], read);
      assert "" + RestText(place, r) == RestText(place, r);
    } else {
      var q := p - |s.end|;
      Cut(BEFORE_TEXT, FromWords(s.text, s.start, after), q);
      if q < |BEFORE_TEXT| {
        literal, place := BEFORE_TEXT[q..], Words;
        OutsideIsPlace(literal, place, r, segments);
      } else {
        literal, place, r := PlaceFromWords(segments, q - |BEFORE_TEXT|);
      }
    }
  }

  lemma TimeIsPlace(segments: seq<Segment>, rest: string, read: Reading)
    requires segments != [] && Finishes(read, rest)
    ensures At("", EndTime(read), RestOf(segments).(end := rest), segments)
    ensures At("", StartTime(read), RestOf(segments).(start := rest), segments)
  {
    hide Finishes;
  }

  /** How much of a number stands before a position in it. */
  lemma ReadSoFar(time: Seconds, p: nat) returns (read: Reading)
    requires p <= |time|
    ensures Finishes(read, time[p..])
  {
    read := ReadFrom(Reading.Nothing, time, p);
  }

  lemma {:induction false} ReadFrom(p: Reading, s: string, k: nat) returns (read: Reading)
    requires Finishes(p, s) && k <= |s|
    ensures Finishes(read, s[k..])
    decreases k
  {
    if k == 0 {
      read := p;
      assert s[0..] == s;
    } else {
      read := ReadFrom(Next(p, s[0]).value, s[1..], k - 1);
      assert s[1..][k - 1..] == s[k..];
    }
  }

  lemma OutsideIsPlace(literal: string, place: Place, r: Rest, segments: seq<Segment>)
    requires Outside(literal, place) && Possible(place, r)
    ensures At(literal, place, r, segments)
  {
  }

  lemma {:induction false} PlaceFromWords(segments: seq<Segment>, p: nat) returns (literal: string, place: Place, r: Rest)
    requires segments != [] && p <= |RestText(Words, RestOf(segments))|
    ensures At(literal, place, r, segments)
    ensures RestText(Words, RestOf(segments))[p..] == literal + RestText(place, r)
    decreases |segments|, 1
  {
    hide Escape, EscapeTail, Finishes, At, AfterStart, Outside;
    var s, after := segments[0], AfterStart(segments[1..]);
    Cut(Escape(s.text), AFTER_TEXT + (s.start + after), p);
    if p <= |Escape(s.text)| {
      place := Words;
      literal, r := PlaceInWords(segments, p);
      assert (literal + Escape(r.words)) + (AFTER_TEXT + (s.start + after)) == literal + RestText(Words, r);
    } else {
      r := RestOf(segments);
      var q := p - |Escape(s.text)|;
      Cut(AFTER_TEXT, s.start + after, q);
      if q <= |AFTER_TEXT| {
        literal, place := AFTER_TEXT[q..], StartTime(Reading.Nothing);
        OutsideIsPlace(literal, place, r, segments);
      } else {
        literal, place, r := PlaceFromStart(segments, q - |AFTER_TEXT|);
      }
    }
  }

  lemma {:induction false} PlaceFromStart(segments: seq<Segment>, p: nat) returns (literal: string, place: Place, r: Rest)
    requires segments != [] && p <= |RestText(StartTime(Reading.Nothing), RestOf(segments))|
    ensures At(literal, place, r, segments)
    ensures RestText(StartTime(Reading.Nothing), RestOf(segments))[p..] == literal + RestText(place, r)
    decreases |segments|, 0
  {
    hide Escape, EscapeTail, Finishes, At, Outside, FromEnd;
    var s, rest := segments[0], segments[1..];
    r := RestOf(segments);
    Cut(s.start, AfterStart(rest), p);
    if p <= |s.start| {
      var read := ReadSoFar(s.start, p);
      literal, place, r := "", StartTime(read), r.(start := s.start[p..]);
      TimeIsPlace(segments, s.start[p..], read);
      assert "" + RestText(place, r) == RestText(place, r);
    } else {
      literal, place, r := PlaceBehind(rest, p - |s.start|);
      AtLater(literal, place, r, s, rest);
      assert segments == [s] + rest;
    }
  }

  lemma {:induction false} PlaceBehind(more: seq<Segment>, p: nat) returns (literal: string, place: Place, r: Rest)
    requires p <= |AfterStart(more)|
    ensures At(literal, place, r, more)
    ensures AfterStart(more)[p..] == literal + RestText(place, r)
    decreases |more|, 3
  {
    hide Escape, EscapeTail, Finishes, At, FromEnd;
    if more == [] {
      literal, place, r := "}]"[p..], Nowhere, Rest("", "", "", []);
      OutsideIsPlace(literal, place, r, more);
      assert literal + "" == literal;
    } else {
      Cut(NEXT_SEGMENT, RestText(EndTime(Reading.Nothing), RestOf(more)), p);
      if p <= |NEXT_SEGMENT| {
        literal, place, r := NEXT_SEGMENT[p..], EndTime(Reading.Nothing), RestOf(more);
        OutsideIsPlace(literal, place, r, more);
      } else {
        literal, place, r := PlaceAfterEnd(more, p - |NEXT_SEGMENT|);
      }
    }
  }

  /** Every position of a stored list is at some place in it. */
  lemma PlaceInStored(segments: seq<Segment>, p: nat) returns (literal: string, place: Place, r: Rest)
    requires p <= |StoredText(segments)|
    ensures At(literal, place, r, segments)
    ensures StoredText(segments)[p..] == literal + RestText(place, r)
  {
    hide Escape, EscapeTail, Finishes, At, FromEnd, StoredText;
    if segments == [] {
      StoredIs([]);
      assert "[" + "" + "]" == "[]";
      literal, place, r := "[]"[p..], Nowhere, Rest("", "", "", []);
      OutsideIsPlace(literal, place, r, segments);
      assert literal + "" == literal;
    } else {
      StoredFrom(segments);
      var first := "[" + BEFORE_END;
      Cut(first, RestText(EndTime(Reading.Nothing), RestOf(segments)), p);
      if p <= |first| {
        literal, place, r := first[p..], EndTime(Reading.Nothing), RestOf(segments);
        OutsideIsPlace(literal, place, r, segments);
      } else {
        literal, place, r := PlaceAfterEnd(segments, p - |first|);
      }
    }
  }

  /** Plain characters that stand in escaped words stand in the words. */
  lemma {:induction false} PlainWereSaid(fold: Fold, query: string, words: string, after: string)
    requires Ordinary(fold) && Plain(query) && StartsWith(fold, Escape(words) + (AFTER_TEXT + after), query)
    ensures StartsWith(fold, words, query)
  {
    hide Ordinary, Escape, EscapeChar, IsEscaped, StartsWith;
    if query == "" {
      NothingIsStart(fold, words);
    } else {
      var rest := AFTER_TEXT + after;
      PlainFirst(query);
      if words == "" {
        EscapeOf('a', "");
        assert "" + rest == ['"'] + rest[1..];
        Behind(fold, query, ['"'], rest[1..]);
        FoldKeepsTime(fold, '"', query[0]);
        QuoteIsEscaped();
        assert false;
      } else {
        var c, more := words[0], words[1..];
        assert words == [c] + more;
        EscapeOf(c, more);
        PlainChar(c);
        assert EscapeChar(c) + Escape(more) + rest == EscapeChar(c) + (Escape(more) + rest);
        Behind(fold, query, EscapeChar(c), Escape(more) + rest);
        PlainFolded(fold, c, query[0]);
        assert "" + (Escape(more) + rest) == Escape(more) + rest && EscapeChar(c)[1..] == "";
        PlainWereSaid(fold, query[1..], more, after);
        StartsWithStep(fold, query, words);
      }
    }
  }

  lemma NothingIsStart(fold: Fold, text: string)
    ensures StartsWith(fold, text, "")
  {
  }

  lemma PlainFirst(s: string)
    requires Plain(s) && s != ""
    ensures !IsEscaped(s[0]) && Plain(s[1..])
  {
  }

  lemma QuoteIsEscaped()
    ensures IsEscaped('"') && IsEscaped('\\')
  {
  }

  /** A plain character is read in escaped words only as a plain character. */
  lemma PlainFolded(fold: Fold, c: char, first: char)
    requires Ordinary(fold) && !IsEscaped(first) && fold(EscapeChar(c)[0]) == fold(first)
    ensures !IsEscaped(c)
  {
    FoldKeepsClass(fold, EscapeChar(c)[0], first);
  }

  lemma SuffixSaid(fold: Fold, query: string, end: string, segments: seq<Segment>, i: nat)
    requires i < |segments| && IsSuffix(end, segments[i].text) && StartsWith(fold, end, query)
    ensures Said(fold, query, segments)
  {
    hide StartsWith;
    var text := segments[i].text;
    assert StartsWith(fold, text[|text| - |end|..], query);
    assert Occurs(fold, query, text);
  }

  /** A query that is found and was not said reads so. */
  lemma FoundReads(fold: Fold, query: string, segments: seq<Segment>)
    requires Ordinary(fold) && Found(fold, query, segments) && !Said(fold, query, segments)
    ensures ReadsUnsaid(fold, query)
  {
    hide Ordinary, Escape, EscapeTail, StoredText, StartsWith, Reads, Outside, Said, AfterStart, InsideWords, Plain;
    var stored := StoredText(segments);
    var p :| 0 <= p <= |stored| && StartsWith(fold, stored[p..], query);
    var literal, place, r := PlaceInStored(segments, p);
    ReadsText(fold, query, literal, place, r);
    if !Outside(literal, place) {
      var i :| 0 <= i < |segments| && InsideWords(literal, r.words, segments[i].text);
      InWordsReads(fold, query, literal, r, segments, i);
    }
  }

  lemma InWordsReads(fold: Fold, query: string, literal: string, r: Rest, segments: seq<Segment>, i: nat)
    requires Ordinary(fold) && i < |segments| && InsideWords(literal, r.words, segments[i].text) && Possible(Words, r)
    requires StartsWith(fold, literal + RestText(Words, r), query) && !Said(fold, query, segments)
    ensures ReadsUnsaid(fold, query)
  {
    hide Ordinary, Escape, EscapeTail, StoredText, StartsWith, Reads, Outside, Said, AfterStart, IsSuffix, Plain, Finishes;
    ReadsText(fold, query, literal, Words, r);
    if literal == "" {
      assert literal + RestText(Words, r) == RestText(Words, r);
      if Plain(query) {
        PlainWereSaid(fold, query, r.words, r.start + AfterStart(r.more));
        SuffixSaid(fold, query, r.words, segments, i);
      }
    } else if query == "" {
      NothingIsStart(fold, literal + r.words);
      SuffixSaid(fold, query, literal + r.words, segments, i);
    } else {
      Behind(fold, query, literal, RestText(Words, r));
      assert literal[1..] == "" && "" + RestText(Words, r) == RestText(Words, r);
      QuoteFolded(fold, literal[0], query[0]);
      ReadsText(fold, query[1..], "", Words, r);
      if Plain(query[1..]) {
        PlainWereSaid(fold, query[1..], r.words, r.start + AfterStart(r.more));
        assert (literal + r.words)[1..] == r.words;
        StartsWithStep(fold, query, literal + r.words);
        SuffixSaid(fold, query, literal + r.words, segments, i);
      }
    }
  }

  lemma QuoteFolded(fold: Fold, c: char, first: char)
    requires Ordinary(fold) && (c == '"' || c == '\\') && fold(c) == fold(first)
    ensures first == c
  {
    FoldKeepsClass(fold, c, first);
  }

  // --------------------------------------------- what reads so is found somewhere

  /** How much of a query is left behind a literal. */
  function Left(query: string, literal: string): nat {
    if |query| <= |literal| then 0 else |query| - |literal|
  }

  predicate Short(text: string, n: nat) {
    text == "" || |text| < n
  }

  /** No words longer than what was read in them, and none but those at hand as long. */
  predicate Brief(place: Place, r: Rest, n: nat) {
    && (place.EndTime? ==> Short(r.words, n))
    && (place.Words? ==> |r.words| <= n)
    && (forall i :: 0 <= i < |r.more| ==> Short(r.more[i].text, n))
  }

  /** A rest that goes on as the query reads, with words that do not say it where they must not. */
  ghost predicate Completes(fold: Fold, query: string, literal: string, place: Place, r: Rest) {
    && Possible(place, r) && StartsWith(fold, literal + RestText(place, r), query) && Brief(place, r, Left(query, literal))
    && (place.Words? && literal == "" && !Plain(query) ==> !SameFolded(fold, r.words, query))
  }

  const ZERO: Seconds := "0"

  /** Some end of a number of which so much has been read. */
  function Ending(p: Reading): string {
    match p
    case Nothing => "0"
    case Sign => "1"
    case MinusZero => ".1"
    case MinusPoint => "1"
    case Point => "0"
    case _ => ""
  }

  /** Some start of a number that reads so far. */
  function Beginning(p: Reading): string {
    match p
    case Nothing => ""
    case Sign => "-"
    case MinusZero => "-0"
    case MinusPoint => "-0."
    case Zero => "0"
    case Integer => "1"
    case Point => "1."
    case Fraction => "1.1"
  }

  lemma EndingFinishes(p: Reading)
    ensures Finishes(p, Ending(p))
  {
    assert ".1"[1..] == "1" && "1"[1..] == "" && "0"[1..] == "";
  }

  lemma BeginningFinishes(p: Reading, rest: string)
    requires Finishes(p, rest)
    ensures IsDecimal(Beginning(p) + rest)
  {
    var s := Beginning(p) + rest;
    if s != rest {
      assert |s| > 1 ==> s[1..][1..] == s[2..];
      assert |s| > 2 ==> s[2..][1..] == s[3..];
      assert s[|Beginning(p)|..] == rest;
      assert Beginning(p)[0] == s[0];
    }
  }

  /** Nothing is said any more. */
  function Silence(place: Place): Rest {
    var time := if place.EndTime? || place.StartTime? then Ending(place.read) else ZERO;
    Rest(time, "", if place.StartTime? then time else ZERO, [])
  }

  lemma {:induction false} Complete(fold: Fold, query: string, literal: string, place: Place) returns (r: Rest)
    requires Ordinary(fold) && Reads(fold, query, literal, place)
    ensures Completes(fold, query, literal, place, r)
    decreases |query|, if literal == "" then 2 else 0
  {
    hide Ordinary, StartsWith, RestText, Plain, SameFolded, Brief, Finishes, Possible;
    if query == "" {
      r := Silence(place);
      EmptyCompletes(fold, literal, place);
    } else if literal != "" {
      r := Complete(fold, query[1..], literal[1..], place);
      LiteralStep(fold, query, literal, place, r);
    } else {
      match place
      case EndTime(p) => r := CompleteEndTime(fold, query, p);
      case Words => r := CompleteWords(fold, query);
      case StartTime(p) => r := CompleteStartTime(fold, query, p);
    }
  }

  lemma EmptyCompletes(fold: Fold, literal: string, place: Place)
    ensures Completes(fold, "", literal, place, Silence(place))
  {
    hide RestText, Finishes;
    if place.EndTime? || place.StartTime? {
      EndingFinishes(place.read);
    }
  }

  lemma Before(fold: Fold, query: string, literal: string, text: string)
    requires query != "" && literal != "" && fold(query[0]) == fold(literal[0]) && StartsWith(fold, literal[1..] + text, query[1..])
    ensures StartsWith(fold, literal + text, query)
  {
    var s := literal + text;
    assert s[1..] == literal[1..] + text;
    StartsWithStep(fold, query, s);
  }

  lemma LiteralStep(fold: Fold, query: string, literal: string, place: Place, r: Rest)
    requires query != "" && literal != "" && fold(query[0]) == fold(literal[0])
    requires Completes(fold, query[1..], literal[1..], place, r)
    ensures Completes(fold, query, literal, place, r)
  {
    hide StartsWith, RestText, Possible, SameFolded;
    Before(fold, query, literal, RestText(place, r));
  }

  lemma CompleteEndTime(fold: Fold, query: string, p: Reading) returns (r: Rest)
    requires Ordinary(fold) && query != "" && Reads(fold, query, "", EndTime(p))
    ensures Completes(fold, query, "", EndTime(p), r)
    decreases |query|, 1
  {
    hide Ordinary, StartsWith, Finishes, Plain, SameFolded, FromWords, Next, IsDecimalChar, AfterStart;
    if Next(p, query[0]).Some? && Reads(fold, query[1..], "", EndTime(Next(p, query[0]).value)) {
      r := Complete(fold, query[1..], "", EndTime(Next(p, query[0]).value));
      TimeStarts(query[0], r.end, p);
      var after := BEFORE_TEXT + RestText(Words, r);
      var more := [query[0]] + r.end;
      assert more[1..] == r.end && "" + (r.end + after) == r.end + after;
      Before(fold, query, more, after);
      r := r.(end := more);
      assert "" + (more + after) == more + after;
    } else {
      r := Complete(fold, query, BEFORE_TEXT, Words);
      NothingLeft(p);
      r := r.(end := "");
      var after := BEFORE_TEXT + RestText(Words, r);
      assert "" + ("" + after) == after;
      assert |BEFORE_TEXT| > 1;
    }
  }

  lemma TimeStarts(c: char, rest: string, p: Reading)
    requires Next(p, c).Some? && Finishes(Next(p, c).value, rest)
    ensures Finishes(p, [c] + rest)
  {
    assert ([c] + rest)[1..] == rest;
  }

  lemma NothingLeft(p: Reading)
    requires Whole(p)
    ensures Finishes(p, "")
  {
  }

  lemma CompleteStartTime(fold: Fold, query: string, p: Reading) returns (r: Rest)
    requires Ordinary(fold) && query != "" && Reads(fold, query, "", StartTime(p))
    ensures Completes(fold, query, "", StartTime(p), r)
    decreases |query|, 1
  {
    hide Ordinary, StartsWith, Finishes, Plain, SameFolded, FromWords, Next, IsDecimalChar;
    if Next(p, query[0]).Some? && Reads(fold, query[1..], "", StartTime(Next(p, query[0]).value)) {
      r := Complete(fold, query[1..], "", StartTime(Next(p, query[0]).value));
      TimeStarts(query[0], r.start, p);
      var after, more := AfterStart(r.more), [query[0]] + r.start;
      assert more[1..] == r.start && "" + (r.start + after) == r.start + after;
      Before(fold, query, more, after);
      r := r.(start := more);
      assert "" + (more + after) == more + after;
    } else if Reads(fold, query, "}]", Nowhere) {
      NothingLeft(p);
      r := Complete(fold, query, "}]", Nowhere);
      r := Rest("0", "", "", []);
      assert "}]" + "" == "}]" && "" + ("" + "}]") == "}]";
    } else {
      NothingLeft(p);
      r := Complete(fold, query, NEXT_SEGMENT, EndTime(Reading.Nothing));
      var s := Segment(r.start, r.end, r.words);
      var more := [s] + r.more;
      assert more[1..] == r.more;
      var after := AfterStart(more);
      assert after == NEXT_SEGMENT + RestText(EndTime(Reading.Nothing), r);
      r := Rest("0", "", "", more);
      assert "" + ("" + after) == after;
    }
  }

  lemma CompleteWords(fold: Fold, query: string) returns (r: Rest)
    requires Ordinary(fold) && query != "" && Reads(fold, query, "", Words)
    ensures Completes(fold, query, "", Words, r)
    decreases |query|, 1
  {
    hide Ordinary, StartsWith, Finishes, Plain, SameFolded, AfterStart, Escape, EscapeChar, IsEscaped;
    if !IsEscaped(query[0]) && Reads(fold, query[1..], "", Words) {
      var rest := Complete(fold, query[1..], "", Words);
      r := PlainStep(fold, query, rest);
    } else if Reads(fold, query, AFTER_TEXT, StartTime(Reading.Nothing)) {
      var rest := Complete(fold, query, AFTER_TEXT, StartTime(Reading.Nothing));
      r := rest.(words := "");
      EscapeOf('a', "");
      var after := AFTER_TEXT + RestText(StartTime(Reading.Nothing), r);
      assert "" + ("" + after) == after;
      NotAsLong(fold, query, "");
    } else {
      var c :| IsStoredEscape(c) && Reads(fold, query, EscapeChar(c), Words);
      PlainChar(c);
      if |query| == 1 {
        r := LoneSlash(fold, query);
      } else {
        var rest := Complete(fold, query, EscapeChar(c), Words);
        r := EscapeStep(fold, query, c, rest);
      }
    }
  }

  lemma NulIsEscaped()
    ensures IsEscaped(NUL)
  {
  }

  lemma NotAsLong(fold: Fold, query: string, words: string)
    requires |words| < |query|
    ensures !SameFolded(fold, words, query)
  {
  }

  lemma PlainStep(fold: Fold, query: string, rest: Rest) returns (r: Rest)
    requires query != "" && !IsEscaped(query[0]) && Completes(fold, query[1..], "", Words, rest)
    ensures Completes(fold, query, "", Words, r)
  {
    hide StartsWith, Finishes, Plain, RestText, SameFolded, IsEscaped;
    NulIsEscaped();
    r := rest.(words := Prepend(query[0], rest.words));
    PlainText(fold, query, rest);
    PlainNotSame(fold, query, rest.words);
  }

  lemma PlainText(fold: Fold, query: string, rest: Rest)
    requires query != "" && !IsEscaped(query[0]) && StartsWith(fold, "" + RestText(Words, rest), query[1..])
    ensures StartsWith(fold, "" + RestText(Words, rest.(words := Prepend(query[0], rest.words))), query)
  {
    hide StartsWith, AfterStart, Escape, EscapeChar, IsEscaped;
    NulIsEscaped();
    var c := query[0];
    EscapeOf(c, rest.words);
    PlainChar(c);
    assert [c][1..] + RestText(Words, rest) == "" + RestText(Words, rest);
    Before(fold, query, [c], RestText(Words, rest));
    assert "" + RestText(Words, rest.(words := Prepend(c, rest.words))) == [c] + RestText(Words, rest);
  }

  lemma PlainNotSame(fold: Fold, query: string, words: string)
    requires query != "" && !IsEscaped(query[0]) && (!Plain(query[1..]) ==> !SameFolded(fold, words, query[1..]))
    ensures !Plain(query) ==> !SameFolded(fold, [query[0]] + words, query)
  {
    hide Plain, IsEscaped, SameFolded;
    var more := [query[0]] + words;
    assert more[1..] == words;
    if SameFolded(fold, more, query) {
      TailFolded(fold, more, query);
      PlainAgain(query);
    }
  }

  lemma TailFolded(fold: Fold, a: string, b: string)
    requires SameFolded(fold, a, b) && a != ""
    ensures SameFolded(fold, a[1..], b[1..])
  {
  }

  lemma PlainAgain(query: string)
    requires query != "" && !IsEscaped(query[0])
    ensures Plain(query[1..]) ==> Plain(query)
  {
    assert forall i :: 0 < i < |query| ==> query[i] == query[1..][i - 1];
  }

  /** A single backslash is read before a quote. */
  lemma LoneSlash(fold: Fold, query: string) returns (r: Rest)
    requires Ordinary(fold) && |query| == 1 && fold(query[0]) == fold('\\')
    ensures Completes(fold, query, "", Words, r)
  {
    hide Ordinary, Finishes, AfterStart;
    r := Rest(ZERO, "\"", ZERO, []);
    assert "\""[0] == '"' && EscapeChar('"') == "\\\"";
    FoldKeepsClass(fold, query[0], '\\');
    assert query == "\\";
    var s := "" + RestText(Words, r);
    assert s[0] == '\\';
    assert s[..1] == query;
    assert IsEscaped(query[0]);
    if SameFolded(fold, r.words, query) {
      FoldKeepsClass(fold, '"', query[0]);
    }
  }

  lemma EscapeStep(fold: Fold, query: string, c: char, rest: Rest) returns (r: Rest)
    requires |query| > 1 && IsStoredEscape(c) && Completes(fold, query, EscapeChar(c), Words, rest)
    ensures Completes(fold, query, "", Words, r)
  {
    hide StartsWith, Finishes, Plain, RestText, IsEscaped, EscapeTail, SameFolded;
    r := rest.(words := Prepend(c, rest.words));
    EscapeText(c, rest);
    TailIsThere(c);
    assert |r.words| < |query|;
    NotAsLong(fold, query, r.words);
    assert Possible(Words, r);
    assert StartsWith(fold, "" + RestText(Words, r), query);
    assert Brief(Words, r, Left(query, ""));
  }

  lemma EscapeText(c: char, rest: Rest)
    requires c != NUL
    ensures "" + RestText(Words, rest.(words := Prepend(c, rest.words))) == EscapeChar(c) + RestText(Words, rest)
  {
    hide AfterStart, Escape, EscapeChar;
    EscapeOf(c, rest.words);
  }

  lemma TailIsThere(c: char)
    requires IsEscaped(c)
    ensures |EscapeChar(c)| >= 2
  {
  }

  /** A time that ends so. */
  function FromStart(p: Reading, rest: string): Seconds
    requires Finishes(p, rest)
  {
    BeginningFinishes(p, rest);
    Beginning(p) + rest
  }

  /** Nobody says anything in a silent segment. */
  function Silent(start: Seconds, end: Seconds): Segment {
    Segment(start, end, "")
  }

  lemma EndIsFound(fold: Fold, query: string, end: string, segments: seq<Segment>)
    requires IsSuffix(end, StoredText(segments)) && StartsWith(fold, end, query)
    ensures Found(fold, query, segments)
  {
    hide StartsWith, StoredText;
    var stored := StoredText(segments);
    assert StartsWith(fold, stored[|stored| - |end|..], query);
  }

  lemma SuffixOf(front: string, end: string)
    ensures IsSuffix(end, front + end)
  {
  }

  lemma SuffixBehind(literal: string, front: string, end: string)
    requires IsSuffix(literal, front)
    ensures IsSuffix(literal + end, front + end)
  {
    assert front == front[..|front| - |literal|] + literal;
    assert front + end == front[..|front| - |literal|] + (literal + end);
  }

  lemma SuffixInside(end: string, middle: string, text: string)
    requires IsSuffix(end, middle) && IsSuffix(middle, text)
    ensures IsSuffix(end, text)
  {
  }

  /** From the end time of the first segment on. */
  lemma StoredFromEnd(s: Segment, more: seq<Segment>)
    ensures IsSuffix("[" + BEFORE_END + FromEnd(s.end, s.text, s.start, AfterStart(more)), StoredText([s] + more))
  {
    hide StoredText, FromEnd, AfterStart;
    var segments := [s] + more;
    assert segments[1..] == more && segments[0] == s;
    StoredFrom(segments);
  }

  /** From each further place of the first segment on. */
  lemma StoredFromPlaces(s: Segment, more: seq<Segment>)
    ensures var stored, after := StoredText([s] + more), AfterStart(more);
            IsSuffix(FromEnd(s.end, s.text, s.start, after), stored) &&
            IsSuffix(BEFORE_TEXT + FromWords(s.text, s.start, after), stored) &&
            IsSuffix(FromWords(s.text, s.start, after), stored) &&
            IsSuffix(AFTER_TEXT + (s.start + after), stored) &&
            IsSuffix(s.start + after, stored) && IsSuffix(after, stored)
  {
    hide StoredText, AfterStart, Escape, IsSuffix;
    var stored, after := StoredText([s] + more), AfterStart(more);
    var fromStart := s.start + after;
    var fromWords := FromWords(s.text, s.start, after);
    StoredFromEnd(s, more);
    SuffixOf("[" + BEFORE_END, FromEnd(s.end, s.text, s.start, after));
    SuffixInside(FromEnd(s.end, s.text, s.start, after), "[" + BEFORE_END + FromEnd(s.end, s.text, s.start, after), stored);
    SuffixOf(s.end, BEFORE_TEXT + fromWords);
    SuffixInside(BEFORE_TEXT + fromWords, FromEnd(s.end, s.text, s.start, after), stored);
    SuffixOf(BEFORE_TEXT, fromWords);
    SuffixInside(fromWords, BEFORE_TEXT + fromWords, stored);
    SuffixOf(Escape(s.text), AFTER_TEXT + fromStart);
    SuffixInside(AFTER_TEXT + fromStart, fromWords, stored);
    SuffixOf(AFTER_TEXT, fromStart);
    SuffixInside(fromStart, AFTER_TEXT + fromStart, stored);
    SuffixOf(s.start, after);
    SuffixInside(after, fromStart, stored);
  }

  /** Texts shorter than the query do not say it. */
  ghost predicate AllShort(segments: seq<Segment>, n: nat) {
    forall i :: 0 <= i < |segments| ==> Short(segments[i].text, n)
  }

  lemma LongerIsNotIn(fold: Fold, query: string, text: string)
    requires query != "" && Short(text, |query|)
    ensures !Occurs(fold, query, text)
  {
  }

  /** A text as long as the query says it only by being the query. */
  lemma SameLength(fold: Fold, query: string, text: string)
    requires |text| <= |query| && query != "" && Occurs(fold, query, text)
    ensures SameFolded(fold, text, query)
  {
    var i :| 0 <= i <= |text| && StartsWith(fold, text[i..], query);
    assert text[0..] == text && text[..|query|] == text;
  }

  lemma NotSaid(fold: Fold, query: string, s: Segment, more: seq<Segment>)
    requires query != "" && AllShort(more, |query|) && !Occurs(fold, query, s.text)
    ensures !Said(fold, query, [s] + more)
  {
    hide Occurs;
    forall i | 0 <= i < |more| + 1
      ensures !Occurs(fold, query, ([s] + more)[i].text)
    {
      if i > 0 {
        LongerIsNotIn(fold, query, more[i - 1].text);
      }
    }
  }

  /** Read from inside a time on. */
  lemma MidTimeIsFound(fold: Fold, query: string, p: Reading, r: Rest) returns (segments: seq<Segment>)
    requires Ordinary(fold) && query != "" && Completes(fold, query, "", EndTime(p), r)
    ensures Found(fold, query, segments) && !Said(fold, query, segments)
  {
    hide Ordinary, StoredText, Escape, Finishes, StartsWith, AfterStart, FromEnd, Reads, Said, Plain, IsSuffix;
    var end := RestText(EndTime(p), r);
    WholeStart(EndTime(p), r);
    LongerIsNotIn(fold, query, r.words);
    var s := Segment(r.start, FromStart(p, r.end), r.words);
    segments := [s] + r.more;
    StoredFromPlaces(s, r.more);
    FromEndBehind(p, r.end, r.words, r.start, AfterStart(r.more));
    assert "" + end == end;
    SuffixInside(end, FromEnd(s.end, s.text, s.start, AfterStart(r.more)), StoredText(segments));
    EndIsFound(fold, query, end, segments);
    NotSaid(fold, query, s, r.more);
  }

  /** Read from the punctuation before the first segment, or before one behind it, on. */
  lemma BeforeTimeIsFound(fold: Fold, query: string, literal: string, r: Rest) returns (segments: seq<Segment>)
    requires Ordinary(fold) && query != "" && Outside(literal, EndTime(Reading.Nothing))
    requires Completes(fold, query, literal, EndTime(Reading.Nothing), r)
    ensures Found(fold, query, segments) && !Said(fold, query, segments)
  {
    hide Ordinary, StoredText, Escape, Finishes, StartsWith, AfterStart, FromEnd, Reads, Said, Plain, IsSuffix;
    var end := RestText(EndTime(Reading.Nothing), r);
    WholeStart(EndTime(Reading.Nothing), r);
    LongerIsNotIn(fold, query, r.words);
    LongerIsNotIn(fold, query, "");
    var s := Segment(r.start, r.end, r.words);
    if IsSuffix(literal, "[" + BEFORE_END) {
      segments := [s] + r.more;
      StoredFromEnd(s, r.more);
      SuffixBehind(literal, "[" + BEFORE_END, end);
      SuffixInside(literal + end, "[" + BEFORE_END + end, StoredText(segments));
      NotSaid(fold, query, s, r.more);
    } else {
      var more := [s] + r.more;
      segments := [Silent(ZERO, ZERO)] + more;
      StoredFromPlaces(Silent(ZERO, ZERO), more);
      NextText(s, r.more);
      SuffixBehind(literal, NEXT_SEGMENT, end);
      SuffixInside(literal + end, AfterStart(more), StoredText(segments));
      assert AllShort(more, |query|);
      NotSaid(fold, query, Silent(ZERO, ZERO), more);
    }
    EndIsFound(fold, query, literal + end, segments);
  }

  lemma EndTimeIsFound(fold: Fold, query: string, literal: string, p: Reading) returns (segments: seq<Segment>)
    requires Ordinary(fold) && query != "" && Outside(literal, EndTime(p)) && Reads(fold, query, literal, EndTime(p))
    ensures Found(fold, query, segments) && !Said(fold, query, segments)
  {
    hide Ordinary, Completes, Reads, Said, Found, IsSuffix;
    var r := Complete(fold, query, literal, EndTime(p));
    if p != Reading.Nothing {
      segments := MidTimeIsFound(fold, query, p, r);
    } else {
      segments := BeforeTimeIsFound(fold, query, literal, r);
    }
  }

  lemma NextText(s: Segment, more: seq<Segment>)
    ensures AfterStart([s] + more) == NEXT_SEGMENT + FromEnd(s.end, s.text, s.start, AfterStart(more))
  {
    hide FromEnd;
    assert ([s] + more)[1..] == more;
  }

  lemma EndBehind(p: Reading, rest: string, after: string)
    requires Finishes(p, rest)
    ensures IsSuffix(rest + after, FromStart(p, rest) + after)
  {
    hide IsSuffix, Finishes, Beginning;
    SuffixOf(Beginning(p), rest + after);
    assert FromStart(p, rest) + after == Beginning(p) + (rest + after);
  }

  lemma FromEndBehind(p: Reading, rest: string, words: string, start: string, after: string)
    requires Finishes(p, rest)
    ensures IsSuffix(FromEnd(rest, words, start, after), FromEnd(FromStart(p, rest), words, start, after))
  {
    hide IsSuffix, FromWords, Finishes;
    EndBehind(p, rest, BEFORE_TEXT + FromWords(words, start, after));
  }

  lemma WholeStart(place: Place, r: Rest)
    requires Possible(place, r)
    ensures place.EndTime? ==> IsDecimal(r.start) && Finishes(place.read, r.end)
    ensures place.Words? ==> IsDecimal(r.start)
    ensures place.StartTime? ==> Finishes(place.read, r.start)
  {
  }

  lemma StartTimeIsFound(fold: Fold, query: string, literal: string, p: Reading) returns (segments: seq<Segment>)
    requires Ordinary(fold) && query != "" && Outside(literal, StartTime(p)) && Reads(fold, query, literal, StartTime(p))
    ensures Found(fold, query, segments) && !Said(fold, query, segments)
  {
    hide Ordinary, StoredText, Escape, Finishes, StartsWith, AfterStart, FromEnd, FromWords, Reads, Said, Plain, IsSuffix;
    var r := Complete(fold, query, literal, StartTime(p));
    var end := RestText(StartTime(p), r);
    WholeStart(StartTime(p), r);
    LongerIsNotIn(fold, query, "");
    var s := Silent(if p != Reading.Nothing then FromStart(p, r.start) else r.start, ZERO);
    segments := [s] + r.more;
    StoredFromPlaces(s, r.more);
    if p != Reading.Nothing {
      EndBehind(p, r.start, AfterStart(r.more));
      assert "" + end == end;
      SuffixInside(end, s.start + AfterStart(r.more), StoredText(segments));
    } else {
      SuffixBehind(literal, AFTER_TEXT, end);
      SuffixInside(literal + end, AFTER_TEXT + end, StoredText(segments));
    }
    EndIsFound(fold, query, literal + end, segments);
    NotSaid(fold, query, s, r.more);
  }

  lemma BracketIsFound(fold: Fold, query: string, literal: string) returns (segments: seq<Segment>)
    requires Ordinary(fold) && query != "" && Outside(literal, Nowhere) && Reads(fold, query, literal, Nowhere)
    ensures Found(fold, query, segments) && !Said(fold, query, segments)
  {
    hide Ordinary, StoredText, Escape, Finishes, StartsWith, FromEnd, FromWords, Reads, Plain, IsSuffix;
    var r := Complete(fold, query, literal, Nowhere);
    assert literal + "" == literal;
    LongerIsNotIn(fold, query, "");
    if IsSuffix(literal, "[]") {
      segments := [];
      StoredIs([]);
      assert "[" + "" + "]" == "[]";
    } else {
      segments := [Silent(ZERO, ZERO)];
      StoredFromPlaces(Silent(ZERO, ZERO), []);
      assert [Silent(ZERO, ZERO)] + [] == segments;
      SuffixInside(literal, "}]", StoredText(segments));
    }
    EndIsFound(fold, query, literal, segments);
  }

  /** Words read behind the quote that opens them. */
  lemma OpeningIsFound(fold: Fold, query: string, literal: string) returns (segments: seq<Segment>)
    requires Ordinary(fold) && query != "" && literal != "" && IsSuffix(literal, BEFORE_TEXT) && Reads(fold, query, literal, Words)
    ensures Found(fold, query, segments) && !Said(fold, query, segments)
  {
    hide Ordinary, StoredText, Escape, Finishes, StartsWith, AfterStart, FromEnd, FromWords, Reads, Said, Plain, IsSuffix;
    var r := Complete(fold, query, literal, Words);
    WholeStart(Words, r);
    var s := Segment(r.start, ZERO, r.words);
    segments := [s] + r.more;
    StoredFromPlaces(s, r.more);
    SuffixBehind(literal, BEFORE_TEXT, RestText(Words, r));
    SuffixInside(literal + RestText(Words, r), BEFORE_TEXT + RestText(Words, r), StoredText(segments));
    EndIsFound(fold, query, literal + RestText(Words, r), segments);
    LongerIsNotIn(fold, query, r.words);
    NotSaid(fold, query, s, r.more);
  }

  /** Words behind an escaped character, read from some way into it. */
  lemma BehindEscapeIsFound(fold: Fold, query: string, c: char, literal: string, r: Rest)
    requires Ordinary(fold) && query != "" && IsStoredEscape(c) && IsSuffix(literal, EscapeTail(c))
    requires IsDecimal(r.start) && StartsWith(fold, literal + RestText(Words, r), query) && AllShort(r.more, |query|)
    requires !Occurs(fold, query, [c] + r.words)
    ensures var segments := [Segment(r.start, ZERO, Prepend(c, r.words))] + r.more;
            Found(fold, query, segments) && !Said(fold, query, segments)
  {
    hide Ordinary, StoredText, Escape, Finishes, StartsWith, AfterStart, FromEnd, Said, IsSuffix, Occurs, EscapeTail, EscapeChar;
    var s := Segment(r.start, ZERO, Prepend(c, r.words));
    var segments := [s] + r.more;
    StoredFromPlaces(s, r.more);
    EscapeText(c, r);
    PlainChar(c);
    var rest := RestText(Words, r);
    assert "" + RestText(Words, r.(words := s.text)) == FromWords(s.text, s.start, AfterStart(r.more));
    assert EscapeChar(c) + rest == ['\\'] + (EscapeTail(c) + rest);
    SuffixOf(['\\'], EscapeTail(c) + rest);
    SuffixBehind(literal, EscapeTail(c), rest);
    SuffixInside(literal + rest, EscapeTail(c) + rest, EscapeChar(c) + rest);
    SuffixInside(literal + rest, EscapeChar(c) + rest, StoredText(segments));
    EndIsFound(fold, query, literal + rest, segments);
    NotSaid(fold, query, s, r.more);
  }

  lemma ControlIsFound(fold: Fold, query: string, c: char, literal: string) returns (segments: seq<Segment>)
    requires Ordinary(fold) && query != "" && literal != "" && IsStoredControl(c) && IsSuffix(literal, EscapeTail(c))
    requires Reads(fold, query, literal, Words)
    ensures Found(fold, query, segments) && !Said(fold, query, segments)
  {
    hide Ordinary, StoredText, Escape, Finishes, StartsWith, AfterStart, FromEnd, FromWords, Said, Plain, IsSuffix, Occurs, EscapeTail;
    var r := Complete(fold, query, literal, Words);
    WholeStart(Words, r);
    var text := Prepend(c, r.words);
    segments := [Segment(r.start, ZERO, text)] + r.more;
    if Occurs(fold, query, text) {
      SameLength(fold, query, text);
      assert fold(text[0]) == fold(query[0]) && fold(query[0]) == fold(literal[0]);
      NoControlInTail(fold, c, literal);
    }
    BehindEscapeIsFound(fold, query, c, literal, r);
  }

  lemma NoControlInTail(fold: Fold, c: char, literal: string)
    requires Ordinary(fold) && IsControl(c) && literal != "" && IsSuffix(literal, EscapeTail(c))
    ensures fold(c) != fold(literal[0])
  {
    assert literal[0] in EscapeTail(c);
    assert literal[0] != c;
    FoldSeparates(fold, c, literal[0]);
  }

  /** Words read with an escaped character or their end in them. */
  lemma WordsAreFound(fold: Fold, query: string) returns (segments: seq<Segment>)
    requires Ordinary(fold) && query != "" && !Plain(query) && Reads(fold, query, "", Words)
    ensures Found(fold, query, segments) && !Said(fold, query, segments)
  {
    hide Ordinary, StoredText, Escape, Finishes, StartsWith, AfterStart, FromEnd, FromWords, Said, Plain, IsSuffix, Occurs, SameFolded;
    var r := Complete(fold, query, "", Words);
    WholeStart(Words, r);
    var s := Segment(r.start, ZERO, r.words);
    segments := [s] + r.more;
    StoredFromPlaces(s, r.more);
    assert "" + RestText(Words, r) == RestText(Words, r);
    EndIsFound(fold, query, RestText(Words, r), segments);
    if Occurs(fold, query, r.words) {
      SameLength(fold, query, r.words);
    }
    NotSaid(fold, query, s, r.more);
  }

  /** The same behind an escaped quote or backslash. */
  lemma QuotedIsFound(fold: Fold, query: string) returns (segments: seq<Segment>)
    requires Ordinary(fold) && query != "" && (query[0] == '"' || query[0] == '\\')
    requires !Plain(query[1..]) && Reads(fold, query[1..], "", Words)
    ensures Found(fold, query, segments) && !Said(fold, query, segments)
  {
    hide Ordinary, StoredText, Escape, Finishes, StartsWith, AfterStart, FromEnd, FromWords, Said, Plain, IsSuffix, Occurs, EscapeTail, SameFolded;
    var c := query[0];
    var r := Complete(fold, query[1..], "", Words);
    WholeStart(Words, r);
    var text := Prepend(c, r.words);
    segments := [Segment(r.start, ZERO, text)] + r.more;
    assert text[1..] == r.words;
    if Occurs(fold, query, text) {
      SameLength(fold, query, text);
      TailFolded(fold, text, query);
    }
    assert [c][1..] + RestText(Words, r) == "" + RestText(Words, r);
    Before(fold, query, [c], RestText(Words, r));
    TailOfOwn(c);
    BehindEscapeIsFound(fold, query, c, [c], r);
  }

  lemma TailOfOwn(c: char)
    requires c == '"' || c == '\\'
    ensures IsEscaped(c) && IsSuffix([c], EscapeTail(c))
  {
  }

  /**
   * Exactly the queries that read so are found in some transcript where nobody
   * says them.
   */
  lemma FoundUnsaidIff(fold: Fold, query: string)
    requires Ordinary(fold)
    ensures FoundUnsaid(fold, query) <==> ReadsUnsaid(fold, query)
  {
    hide Found, Said, ReadsUnsaid, Ordinary;
    if FoundUnsaid(fold, query) {
      var segments :| Found(fold, query, segments) && !Said(fold, query, segments);
      FoundReads(fold, query, segments);
    }
    if ReadsUnsaid(fold, query) {
      ReadIsFound(fold, query);
    }
  }

  lemma ReadIsFound(fold: Fold, query: string)
    requires Ordinary(fold) && ReadsUnsaid(fold, query)
    ensures FoundUnsaid(fold, query)
  {
    hide Found, Said, Ordinary, Reads, IsSuffix, EscapeTail, Plain;
    if query == "" {
      NothingIsFound(fold);
    } else if literal: string, place: Place :| Outside(literal, place) && Reads(fold, query, literal, place) {
      match place
      case EndTime(p) => var segments := EndTimeIsFound(fold, query, literal, p);
      case StartTime(p) => var segments := StartTimeIsFound(fold, query, literal, p);
      case Nowhere => var segments := BracketIsFound(fold, query, literal);
      case Words =>
        if IsSuffix(literal, BEFORE_TEXT) {
          var segments := OpeningIsFound(fold, query, literal);
        } else {
          var c :| IsStoredControl(c) && IsSuffix(literal, EscapeTail(c));
          var segments := ControlIsFound(fold, query, c, literal);
        }
    } else if !Plain(query) && Reads(fold, query, "", Words) {
      var segments := WordsAreFound(fold, query);
    } else {
      var segments := QuotedIsFound(fold, query);
    }
  }

  lemma NothingIsFound(fold: Fold)
    ensures FoundUnsaid(fold, "")
  {
    hide StoredText;
    NothingIsStart(fold, StoredText([])[0..]);
    assert Found(fold, "", []) && !Said(fold, "", []);
  }

  // ------------------------------------------------------------- single words

  predicate IsWord(s: string) {
    s != "" && forall i :: 0 <= i < |s| ==> IsLetter(s[i])
  }

  /** The two agree as far as both go, case aside. */
  predicate Agree(fold: Fold, a: string, b: string) {
    forall i :: 0 <= i < |a| && i < |b| ==> fold(a[i]) == fold(b[i])
  }

  /**
   * The query starts like some end of what follows the backslash of an escaped
   * control character: `b`, `t`, `n`, `f`, `r` or `u00` and two hexadecimal digits.
   */
  ghost predicate StartsLikeEscape(fold: Fold, query: string) {
    exists c, k :: IsStoredControl(c) && 0 <= k < |EscapeTail(c)| && Agree(fold, query, EscapeTail(c)[k..])
  }

  ghost predicate InFieldName(fold: Fold, query: string) {
    Occurs(fold, query, "end") || Occurs(fold, query, "text") || Occurs(fold, query, "start")
  }

  /** Plain characters are read behind whatever they agree with. */
  lemma {:induction false} PlainReads(fold: Fold, query: string, literal: string)
    requires Plain(query) && Agree(fold, query, literal)
    ensures Reads(fold, query, literal, Words)
  {
    if query != "" {
      var rest := if literal == "" then "" else literal[1..];
      assert query[0] == query[..][0];
      forall i | 0 <= i < |query[1..]| && i < |rest|
        ensures fold(query[1..][i]) == fold(rest[i])
      {
        assert query[1..][i] == query[i + 1] && rest[i] == literal[i + 1];
      }
      PlainReads(fold, query[1..], rest);
    }
  }

  lemma {:induction false} PrefixReads(fold: Fold, query: string, literal: string, place: Place)
    requires StartsWith(fold, literal, query)
    ensures Reads(fold, query, literal, place)
  {
    hide StartsWith;
    if query != "" {
      if literal == "" {
        NothingStarts(fold, query);
      } else {
        StartsWithStep(fold, query, literal);
        PrefixReads(fold, query[1..], literal[1..], place);
      }
    }
  }

  lemma OccursReads(fold: Fold, query: string, frame: string, place: Place) returns (literal: string)
    requires Occurs(fold, query, frame) && query != ""
    ensures literal != "" && IsSuffix(literal, frame) && Reads(fold, query, literal, place)
  {
    hide Reads;
    var i :| 0 <= i <= |frame| && StartsWith(fold, frame[i..], query);
    literal := frame[i..];
    PrefixReads(fold, query, literal, place);
  }

  lemma FieldNameReads(fold: Fold, query: string)
    requires InFieldName(fold, query) && query != ""
    ensures ReadsUnsaid(fold, query)
  {
    hide Reads, Occurs, Plain, IsSuffix;
    if Occurs(fold, query, "end") {
      OccursAround(fold, query, "[{\"", "end", "\": ");
      assert "[{\"" + "end" + "\": " == "[" + BEFORE_END;
      var literal := OccursReads(fold, query, "[" + BEFORE_END, EndTime(Reading.Nothing));
      assert Outside(literal, EndTime(Reading.Nothing));
    } else if Occurs(fold, query, "text") {
      OccursAround(fold, query, ", \"", "text", "\": \"");
      assert ", \"" + "text" + "\": \"" == BEFORE_TEXT;
      var literal := OccursReads(fold, query, BEFORE_TEXT, Words);
      assert Outside(literal, Words);
    } else {
      OccursAround(fold, query, "\", \"", "start", "\": ");
      assert "\", \"" + "start" + "\": " == AFTER_TEXT;
      var literal := OccursReads(fold, query, AFTER_TEXT, StartTime(Reading.Nothing));
      assert Outside(literal, StartTime(Reading.Nothing));
    }
  }

  lemma EscapeReads(fold: Fold, query: string)
    requires Plain(query) && StartsLikeEscape(fold, query)
    ensures ReadsUnsaid(fold, query)
  {
    hide Reads, Plain, EscapeTail, Agree;
    var c, k :| IsStoredControl(c) && 0 <= k < |EscapeTail(c)| && Agree(fold, query, EscapeTail(c)[k..]);
    var literal := EscapeTail(c)[k..];
    PlainReads(fold, query, literal);
    assert IsSuffix(literal, EscapeTail(c));
    assert literal != "" && Outside(literal, Words);
  }

  /** The letters of a frame are its field name. */
  predicate OnlyName(frame: string, front: string, name: string) {
    && front + name <= frame
    && (forall i :: 0 <= i < |frame| ==> (IsLetter(frame[i]) <==> |front| <= i < |front| + |name|))
    && frame != "" && !IsLetter(frame[|frame| - 1])
  }

  /** A word does not reach behind the literals of a frame. */
  lemma {:induction false} WordInLiteral(fold: Fold, query: string, literal: string, place: Place)
    requires Ordinary(fold) && Reads(fold, query, literal, place) && literal != "" && !IsLetter(literal[|literal| - 1])
    requires forall i :: 0 <= i < |query| ==> IsLetter(query[i])
    ensures StartsWith(fold, literal, query)
  {
    hide Ordinary;
    if query != "" {
      FoldKeepsClass(fold, query[0], literal[0]);
      assert |literal| > 1;
      assert forall i :: 0 <= i < |query[1..]| ==> query[1..][i] == query[i + 1];
      WordInLiteral(fold, query[1..], literal[1..], place);
      StartsWithStep(fold, query, literal);
    }
  }

  lemma WordInName(fold: Fold, query: string, literal: string, place: Place, frame: string, front: string, name: string)
    requires Ordinary(fold) && IsWord(query) && OnlyName(frame, front, name)
    requires literal != "" && IsSuffix(literal, frame) && Reads(fold, query, literal, place)
    ensures Occurs(fold, query, name)
  {
    hide Reads, Ordinary, IsLetter;
    WordInLiteral(fold, query, literal, place);
    var at := |frame| - |literal|;
    forall i | 0 <= i < |query|
      ensures fold(frame[at + i]) == fold(query[i]) && IsLetter(frame[at + i])
    {
      assert literal[..|query|][i] == frame[at + i];
      FoldKeepsClass(fold, frame[at + i], query[i]);
      BothLetters(fold, frame[at + i], query[i]);
    }
    var first, last := 0, |query| - 1;
    assert IsLetter(frame[at + first]) && IsLetter(frame[at + last]);
    var k := at - |front|;
    forall i | 0 <= i < |query|
      ensures fold(name[k..][..|query|][i]) == fold(query[i])
    {
      assert (front + name)[at + i] == name[k + i];
    }
    assert StartsWith(fold, name[k..], query);
  }

  lemma BothLetters(fold: Fold, a: char, b: char)
    requires Ordinary(fold) && fold(a) == fold(b) && IsLetter(b)
    ensures IsLetter(a)
  {
  }

  /** A word is not read in a time, nor where only punctuation can come. */
  lemma NoWordThere(fold: Fold, query: string, place: Place)
    requires Ordinary(fold) && IsWord(query) && !place.Words?
    ensures !Reads(fold, query, "", place)
  {
    FirstDiffers(fold, query[0], ',');
    FirstDiffers(fold, query[0], '}');
  }

  lemma FirstDiffers(fold: Fold, a: char, b: char)
    requires Ordinary(fold) && IsLetter(a) && !IsLetter(b)
    ensures fold(a) != fold(b)
  {
  }

  lemma {:induction false} ReadAgrees(fold: Fold, query: string, literal: string, place: Place)
    requires Reads(fold, query, literal, place)
    ensures Agree(fold, query, literal)
  {
    if query != "" && literal != "" {
      ReadAgrees(fold, query[1..], literal[1..], place);
      forall i | 0 <= i < |query| && i < |literal|
        ensures fold(query[i]) == fold(literal[i])
      {
        if i > 0 {
          assert query[i] == query[1..][i - 1] && literal[i] == literal[1..][i - 1];
        }
      }
    }
  }

  lemma WordReads(fold: Fold, query: string, literal: string, place: Place)
    requires Ordinary(fold) && IsWord(query) && Outside(literal, place) && Reads(fold, query, literal, place)
    ensures InFieldName(fold, query) || StartsLikeEscape(fold, query)
  {
    hide Reads, Ordinary, Occurs, EscapeTail, IsSuffix, OnlyName, IsWord, Agree;
    if literal == "" {
      NoWordThere(fold, query, place);
    } else {
      match place
      case EndTime(_) =>
        EndName();
        WordInName(fold, query, literal, place, if IsSuffix(literal, "[" + BEFORE_END) then "[" + BEFORE_END else NEXT_SEGMENT,
                   if IsSuffix(literal, "[" + BEFORE_END) then "[{\"" else "}, {\"", "end");
      case StartTime(_) =>
        OtherNames();
        WordInName(fold, query, literal, place, AFTER_TEXT, "\", \"", "start");
      case Nowhere =>
        OtherNames();
        WordInName(fold, query, literal, place, if IsSuffix(literal, "[]") then "[]" else "}]", "", "");
        NoWordInNothing(fold, query);
      case Words =>
        if IsSuffix(literal, BEFORE_TEXT) {
          OtherNames();
          WordInName(fold, query, literal, place, BEFORE_TEXT, ", \"", "text");
        } else {
          var c :| IsStoredControl(c) && IsSuffix(literal, EscapeTail(c));
          ReadAgrees(fold, query, literal, place);
          SuffixFrom(literal, EscapeTail(c));
        }
    }
  }

  lemma SuffixFrom(literal: string, text: string)
    requires IsSuffix(literal, text)
    ensures 0 <= |text| - |literal| && text[|text| - |literal|..] == literal
  {
  }

  lemma NoWordInNothing(fold: Fold, query: string)
    requires IsWord(query)
    ensures !Occurs(fold, query, "")
  {
  }

  lemma EndName()
    ensures OnlyName("[" + BEFORE_END, "[{\"", "end") && OnlyName(NEXT_SEGMENT, "}, {\"", "end")
  {
    assert "[" + BEFORE_END == "[{\"end\": ";
    assert NEXT_SEGMENT == "}, {\"end\": ";
  }

  lemma OtherNames()
    ensures OnlyName(BEFORE_TEXT, ", \"", "text") && OnlyName(AFTER_TEXT, "\", \"", "start")
    ensures OnlyName("[]", "", "") && OnlyName("}]", "", "")
  {
  }

  lemma WordIsPlain(query: string)
    requires IsWord(query)
    ensures query != "" && Plain(query) && query[0] != '"' && query[0] != '\\'
  {
  }

  /**
   * A single word is found where nobody says it exactly when it is part of a
   * field name or starts like what JSON writes for a control character.
   */
  lemma WordFoundUnsaidIff(fold: Fold, query: string)
    requires Ordinary(fold) && IsWord(query)
    ensures FoundUnsaid(fold, query) <==> InFieldName(fold, query) || StartsLikeEscape(fold, query)
  {
    hide Reads, Ordinary, IsWord, Plain, InFieldName, StartsLikeEscape, Outside, FoundUnsaid;
    WordIsPlain(query);
    FoundUnsaidIff(fold, query);
    if ReadsUnsaid(fold, query) {
      var literal, place :| Outside(literal, place) && Reads(fold, query, literal, place);
      WordReads(fold, query, literal, place);
    }
    if InFieldName(fold, query) {
      FieldNameReads(fold, query);
    }
    if StartsLikeEscape(fold, query) {
      EscapeReads(fold, query);
    }
  }

  /** Plain queries that start with one of these letters, or with a digit, can be found where nobody says them. */
  lemma SomeFirstLetters(fold: Fold, query: string)
    requires Ordinary(fold) && Plain(query) && query != "" && query[0] in "ntr0123456789abcdef"
    ensures FoundUnsaid(fold, query)
  {
    hide FoundUnsaid, Ordinary, Plain, Reads, StartsLikeEscape;
    var first := query[0];
    if first == 'n' {
      StartsLike(fold, query, 10 as char, 0);
    } else if first == 't' {
      StartsLike(fold, query, 9 as char, 0);
    } else if first == 'r' {
      StartsLike(fold, query, 13 as char, 0);
    } else {
      HexDigitOf(first);
      LastHexDigit(HexValue(first).value);
      StartsLike(fold, query, (16 + HexValue(first).value) as char, 4);
    }
    EscapeReads(fold, query);
    FoundUnsaidIff(fold, query);
  }

  lemma LastHexDigit(d: nat)
    requires d < 16
    ensures EscapeTail((16 + d) as char)[4..] == [HexDigit(d)]
  {
  }

  lemma StartsLike(fold: Fold, query: string, c: char, k: nat)
    requires query != "" && IsStoredControl(c) && k < |EscapeTail(c)| && EscapeTail(c)[k..] == [query[0]]
    ensures StartsLikeEscape(fold, query)
  {
    hide EscapeTail;
    assert Agree(fold, query, EscapeTail(c)[k..]);
  }

  lemma HexDigitOf(c: char)
    requires c in "0123456789abcdef"
    ensures HexValue(c).Some? && HexValue(c).value < 16 && HexDigit(HexValue(c).value) == c
  {
  }

  lemma {:induction false} ClosingReads(fold: Fold, words: string)
    requires Plain(words)
    ensures Reads(fold, words + ['"'], "", Words)
  {
    var query := words + ['"'];
    if words == "" {
      assert query == ['"'] && query[1..] == "" && AFTER_TEXT[0] == '"';
      assert Reads(fold, query[1..], AFTER_TEXT[1..], StartTime(Reading.Nothing));
    } else {
      assert query[1..] == words[1..] + ['"'];
      ClosingReads(fold, words[1..]);
    }
  }

  /** Words in quotation marks are found where they stand alone as a segment, though nobody says the marks. */
  lemma QuotedWordsAreFoundUnsaid(fold: Fold, words: string)
    requires Ordinary(fold) && Plain(words)
    ensures FoundUnsaid(fold, ['"'] + words + ['"'])
  {
    hide FoundUnsaid, Ordinary, Plain;
    var query := ['"'] + words + ['"'];
    ClosingReads(fold, words);
    assert query[1..] == words + ['"'] && ['"'][1..] == "";
    assert Reads(fold, query, ['"'], Words);
    assert IsSuffix(['"'], BEFORE_TEXT);
    assert Outside(['"'], Words);
    FoundUnsaidIff(fold, query);
  }

  // ------------------------------------------------------- runs of punctuation

  predicate NoPoints(text: string) {
    forall i :: 0 <= i < |text| ==> text[i] != '.' && text[i] != '-'
  }

  lemma SuffixHasNoPoints(s: string, text: string)
    requires IsSuffix(s, text) && NoPoints(text)
    ensures NoPoints(s)
  {
    assert forall i :: 0 <= i < |s| ==> s[i] == text[|text| - |s| + i];
  }

  lemma FramesHaveNoPoints()
    ensures NoPoints("[" + BEFORE_END) && NoPoints(NEXT_SEGMENT) && NoPoints(BEFORE_TEXT) && NoPoints(AFTER_TEXT)
    ensures NoPoints("[]") && NoPoints("}]")
  {
    assert NoPoints(BEFORE_END);
  }

  lemma EscapeHasNoPoints(c: char)
    requires IsStoredControl(c)
    ensures NoPoints(EscapeTail(c))
  {
  }

  /** Neither points nor dashes stand in the punctuation and the escapes. */
  lemma NoPointThere(literal: string, place: Place)
    requires Outside(literal, place) && literal != ""
    ensures literal[0] != '.' && literal[0] != '-'
  {
    hide IsSuffix, EscapeTail;
    FramesHaveNoPoints();
    match place
    case EndTime(_) =>
      SuffixHasNoPoints(literal, if IsSuffix(literal, "[" + BEFORE_END) then "[" + BEFORE_END else NEXT_SEGMENT);
    case StartTime(_) => SuffixHasNoPoints(literal, AFTER_TEXT);
    case Nowhere => SuffixHasNoPoints(literal, if IsSuffix(literal, "[]") then "[]" else "}]");
    case Words =>
      if IsSuffix(literal, BEFORE_TEXT) {
        SuffixHasNoPoints(literal, BEFORE_TEXT);
      } else {
        var c :| IsStoredControl(c) && IsSuffix(literal, EscapeTail(c));
        EscapeHasNoPoints(c);
        SuffixHasNoPoints(literal, EscapeTail(c));
      }
  }

  /** A point or a dash is read outside words only as part of a number. */
  lemma ReadInNumber(fold: Fold, query: string, literal: string, place: Place)
    requires Ordinary(fold) && query != "" && (query[0] == '.' || query[0] == '-')
    requires Outside(literal, place) && Reads(fold, query, literal, place)
    ensures (place.EndTime? || place.StartTime?) && literal == ""
    ensures Next(place.read, query[0]).Some?
    ensures Reads(fold, query[1..], "", place.(read := Next(place.read, query[0]).value))
  {
    hide Ordinary, IsSuffix;
    if literal != "" {
      NoPointThere(literal, place);
      FoldSeparates(fold, query[0], literal[0]);
    } else {
      NothingElse(fold, query[0]);
    }
  }

  lemma NothingElse(fold: Fold, c: char)
    requires Ordinary(fold) && (c == '.' || c == '-')
    ensures fold(c) != fold(',') && fold(c) != fold('}')
  {
  }

  /** Points or dashes in a row are found only where somebody says them. */
  lemma RunsOfPointsAreSaid(fold: Fold, query: string)
    requires Ordinary(fold) && 1 < |query| && (query[0] == '.' || query[0] == '-') && query[1] == query[0] && Plain(query)
    ensures !FoundUnsaid(fold, query)
  {
    hide Ordinary, Outside, FoundUnsaid, Plain;
    FoundUnsaidIff(fold, query);
    if literal: string, place: Place :| Outside(literal, place) && Reads(fold, query, literal, place) {
      ReadInNumber(fold, query, literal, place);
      NothingElse(fold, query[0]);
    }
  }
}
