/**
 * A transcript's segments as the text of their `jsonb` column, which a search
 * is held against, and the segments read back from that text. The database
 * prints the members of an object by the length of their names.
 */
module TranscriptText {
  import opened Common
  import Json
  import opened Strings

  /** How much of a decimal number stands behind the reader; a minus sign asks for a digit that is not zero. */
  datatype Reading = Nothing | Sign | MinusZero | MinusPoint | Zero | Integer | Point | Fraction

  /** What one more character makes of it; none where it cannot stand. */
  function Next(p: Reading, c: char): Option<Reading> {
    match p
    case Nothing => if c == '-' then Some(Sign) else if c == '0' then Some(Zero) else if IsDigit(c) then Some(Integer) else None
    case Sign => if c == '0' then Some(MinusZero) else if IsDigit(c) then Some(Integer) else None
    case MinusZero => if c == '.' then Some(MinusPoint) else None
    case MinusPoint => if c == '0' then Some(MinusPoint) else if IsDigit(c) then Some(Fraction) else None
    case Zero => if c == '.' then Some(Point) else None
    case Integer => if IsDigit(c) then Some(Integer) else if c == '.' then Some(Point) else None
    case Point => if IsDigit(c) then Some(Fraction) else None
    case Fraction => if IsDigit(c) then Some(Fraction) else None
  }

  /** A number may end here. */
  predicate Whole(p: Reading) {
    p in {Zero, Integer, Fraction}
  }

  /** The text ends a number of which so much stands before it. */
  predicate Finishes(p: Reading, s: string)
    decreases |s|
  {
    if s == "" then Whole(p) else Next(p, s[0]).Some? && Finishes(Next(p, s[0]).value, s[1..])
  }

  /**
   * The decimal text the database prints for a number: an integer without leading
   * zeros, with digits behind a point or without, and a sign only if it is not zero.
   */
  predicate IsDecimal(s: string) {
    Finishes(Nothing, s)
  }

  predicate IsDecimalChar(c: char) {
    IsDigit(c) || c == '-' || c == '.'
  }

  /** A number of seconds. */
  type Seconds = s: string | IsDecimal(s) witness "0"

  /** Where the reader of a decimal stands among the numbers of JSON. */
  predicate Matches(p: Reading, d: Json.Digits) {
    match p
    case Nothing => d == Json.Nothing
    case Sign => d == Json.Sign
    case MinusZero => d == Json.Zero
    case MinusPoint => d == Json.Point || d == Json.Fraction
    case Zero => d == Json.Zero
    case Integer => d == Json.Integer
    case Point => d == Json.Point
    case Fraction => d == Json.Fraction
  }

  lemma {:induction false} FinishesNumeral(p: Reading, d: Json.Digits, s: string)
    requires Finishes(p, s) && Matches(p, d)
    ensures Json.Ends(d, s)
    decreases |s|
  {
    if s != "" {
      FinishesNumeral(Next(p, s[0]).value, Json.Advance(d, s[0]).value, s[1..]);
    }
  }

  lemma DecimalIsNumeral(s: Seconds)
    ensures Json.IsNumeral(s)
  {
    FinishesNumeral(Nothing, Json.Nothing, s);
  }

  const NUL := 0 as char

  predicate HasNul(s: string) {
    exists i :: 0 <= i < |s| && s[i] == NUL
  }

  /** The words of a segment: the column refuses the character NUL. */
  type Utterance = s: string | !HasNul(s) witness ""

  function Prepend(c: char, words: Utterance): (r: Utterance)
    requires c != NUL
    ensures r == [c] + words
  {
    [c] + words
  }

  datatype Segment = Segment(start: Seconds, end: Seconds, text: Utterance)

  function ToJson(s: Segment): Json.Json {
    DecimalIsNumeral(s.end);
    DecimalIsNumeral(s.start);
    Json.Object([
      Json.Member("end", Json.Number(s.end)),
      Json.Member("text", Json.String(s.text)),
      Json.Member("start", Json.Number(s.start))])
  }

  function ToItems(segments: seq<Segment>): seq<Json.Json> {
    if segments == [] then [] else [ToJson(segments[0])] + ToItems(segments[1..])
  }

  /** `segments::text`. */
  function StoredText(segments: seq<Segment>): string {
    Json.Print(Json.List(ToItems(segments)), true)
  }

  /** The value of the last member with a name. */
  function Field(members: seq<Json.Member>, name: string): Json.Json {
    if members == [] then Json.Null
    else if Last(members).name == name then Last(members).value
    else Field(Front(members), name)
  }

  /** An item of the list as a segment; other values are passed over. */
  function FromJson(j: Json.Json): seq<Segment> {
    if !j.Object? then []
    else
      var start, end, text := Field(j.members, "start"), Field(j.members, "end"), Field(j.members, "text");
      if start.Number? && end.Number? && text.String? && IsDecimal(start.numeral) && IsDecimal(end.numeral) && !HasNul(text.text)
      then [Segment(start.numeral, end.numeral, text.text)] else []
  }

  function FromItems(items: seq<Json.Json>): seq<Segment> {
    if items == [] then [] else FromJson(items[0]) + FromItems(items[1..])
  }

  /** `parseSegments`: no segments when the text is no JSON list. */
  function ParseSegments(raw: string): seq<Segment> {
    match Json.Parse(raw)
    case Some(List(items)) => FromItems(items)
    case _ => []
  }

  lemma SegmentReadBack(s: Segment)
    ensures FromJson(ToJson(s)) == [s]
  {
    var members := ToJson(s).members;
    assert Front(members) == members[..2] && Last(members) == members[2];
    assert Front(members[..2]) == members[..1] && Last(members[..2]) == members[1] && Last(members[..1]) == members[0];
    assert Field(members, "start") == Json.Number(s.start);
    assert Field(members[..2], "text") == Json.String(s.text);
    assert Field(members[..1], "end") == Json.Number(s.end);
    assert Field(members, "text") == Field(members[..2], "text");
    assert Field(members, "end") == Field(members[..2], "end") == Field(members[..1], "end");
  }

  lemma {:induction false} ItemsReadBack(segments: seq<Segment>)
    ensures FromItems(ToItems(segments)) == segments
  {
    hide FromJson, ToJson;
    if segments != [] {
      SegmentReadBack(segments[0]);
      ItemsReadBack(segments[1..]);
      assert ToItems(segments)[1..] == ToItems(segments[1..]);
      assert segments == [segments[0]] + segments[1..];
    }
  }

  /** The segments written to the column are the segments read from it. */
  lemma ParseStored(segments: seq<Segment>)
    ensures ParseSegments(StoredText(segments)) == segments
  {
    Json.ParsePrint(Json.List(ToItems(segments)), true);
    ItemsReadBack(segments);
  }

  // ------------------------------------------------------ the text, piece by piece

  /** What stands before the end time, between the pieces of a segment, and after the start time. */
  const BEFORE_END := "{\"end\": "
  const BEFORE_TEXT := ", \"text\": \""
  const AFTER_TEXT := "\", \"start\": "

  function SegmentText(s: Segment): string {
    BEFORE_END + s.end + BEFORE_TEXT + Json.Escape(s.text) + AFTER_TEXT + s.start + "}"
  }

  function SegmentTexts(segments: seq<Segment>): string {
    if segments == [] then ""
    else if |segments| == 1 then SegmentText(segments[0])
    else SegmentText(segments[0]) + ", " + SegmentTexts(segments[1..])
  }

  lemma PrintThree(a: Json.Member, b: Json.Member, c: Json.Member)
    ensures Json.PrintMembers([a, b, c], true) ==
            Json.PrintMember(a, true) + ", " + Json.PrintMember(b, true) + ", " + Json.PrintMember(c, true)
  {
    hide Json.PrintMember;
    assert [a, b, c][1..] == [b, c] && [b, c][1..] == [c];
    assert Json.PrintMembers([c], true) == Json.PrintMember(c, true);
    assert Json.PrintMembers([b, c], true) == Json.PrintMember(b, true) + ", " + Json.PrintMember(c, true);
  }

  lemma PrintOne(name: string, value: Json.Json, text: string)
    requires Json.Escape(name) == name && Json.Print(value, true) == text
    ensures Json.PrintMember(Json.Member(name, value), true) == "\"" + name + "\": " + text
  {
    hide Json.Print, Json.Escape;
  }

  lemma PrintedSegment(s: Segment)
    ensures Json.Print(ToJson(s), true) == SegmentText(s)
  {
    hide Json.PrintMembers, Json.PrintMember, Json.Escape;
    DecimalIsNumeral(s.end);
    DecimalIsNumeral(s.start);
    var end, text, start := Json.Member("end", Json.Number(s.end)), Json.Member("text", Json.String(s.text)),
        Json.Member("start", Json.Number(s.start));
    PlainNames();
    PrintOne("end", Json.Number(s.end), s.end);
    PrintOne("text", Json.String(s.text), Json.Quoted(s.text));
    PrintOne("start", Json.Number(s.start), s.start);
    PrintThree(end, text, start);
    assert "\"" + "end" + "\": " == "\"end\": " && "\"" + "text" + "\": " == "\"text\": " && "\"" + "start" + "\": " == "\"start\": ";
    SegmentPieces(s);
  }

  lemma Pieces(o: string, e: string, end: string, comma: string, t: string, q: string, words: string, st: string, start: string,
               close: string)
    ensures (o + e) + end + (comma + t + q) + words + (q + comma + st) + start + close ==
            o + (e + end + comma + (t + (q + words + q)) + comma + (st + start)) + close
  {
    var first, second := e + end + comma, t + (q + words + q);
    assert (o + e) + end + (comma + t + q) + words + (q + comma + st) == o + (first + second + comma) + st;
  }

  lemma SegmentPieces(s: Segment)
    ensures SegmentText(s) ==
            "{" + ("\"end\": " + s.end + ", " + ("\"text\": " + Json.Quoted(s.text)) + ", " + ("\"start\": " + s.start)) + "}"
  {
    hide Json.Escape;
    Pieces("{", "\"end\": ", s.end, ", ", "\"text\": ", "\"", Json.Escape(s.text), "\"start\": ", s.start, "}");
    assert BEFORE_END == "{" + "\"end\": " && BEFORE_TEXT == ", " + "\"text\": " + "\"" && AFTER_TEXT == "\"" + ", " + "\"start\": ";
  }

  lemma PlainNames()
    ensures Json.Escape("end") == "end" && Json.Escape("text") == "text" && Json.Escape("start") == "start"
  {
    PlainEscape("end");
    PlainEscape("text");
    PlainEscape("start");
  }

  lemma {:induction false} PlainEscape(s: string)
    requires forall i :: 0 <= i < |s| ==> !Json.IsEscaped(s[i])
    ensures Json.Escape(s) == s
  {
    if s != "" {
      PlainEscape(s[1..]);
    }
  }

  lemma {:induction false} PrintedItems(segments: seq<Segment>)
    ensures Json.PrintItems(ToItems(segments), true) == SegmentTexts(segments)
  {
    hide SegmentText, ToJson, Json.Print;
    if segments != [] {
      PrintedSegment(segments[0]);
      assert ToItems(segments)[1..] == ToItems(segments[1..]);
      PrintedItems(segments[1..]);
      ItemCount(segments);
    }
  }

  lemma {:induction false} ItemCount(segments: seq<Segment>)
    ensures |ToItems(segments)| == |segments|
  {
    if segments != [] {
      ItemCount(segments[1..]);
    }
  }

  lemma StoredIs(segments: seq<Segment>)
    ensures StoredText(segments) == "[" + SegmentTexts(segments) + "]"
  {
    hide SegmentTexts;
    PrintedItems(segments);
  }
}
