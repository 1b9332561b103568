/**
 * JSON text: printed compactly as the program prints it or with the spacing the
 * database uses, and parsed back. A number is carried as its decimal text, which
 * tells it from every other number.
 */
module Json {
  import opened Common
  import opened Strings

  predicate IsNumeralChar(c: char) {
    IsDigit(c) || c == '-' || c == '+' || c == '.' || c == 'e' || c == 'E'
  }

  /** How much of a number stands behind the reader. */
  datatype Digits = Nothing | Sign | Zero | Integer | Point | Fraction | Mark | MarkSign | Exponent

  /** What one more character makes of a number (section 6 of RFC 8259); none where it cannot stand. */
  function Advance(p: Digits, c: char): Option<Digits> {
    match p
    case Nothing => if c == '-' then Some(Sign) else Leading(c)
    case Sign => Leading(c)
    case Zero => AfterInteger(c)
    case Integer => if IsDigit(c) then Some(Integer) else AfterInteger(c)
    case Point => if IsDigit(c) then Some(Fraction) else None
    case Fraction => if IsDigit(c) then Some(Fraction) else Marking(c)
    case Mark => if c == '+' || c == '-' then Some(MarkSign) else if IsDigit(c) then Some(Exponent) else None
    case MarkSign => if IsDigit(c) then Some(Exponent) else None
    case Exponent => if IsDigit(c) then Some(Exponent) else None
  }

  function Leading(c: char): Option<Digits> {
    if c == '0' then Some(Zero) else if IsDigit(c) then Some(Integer) else None
  }

  function AfterInteger(c: char): Option<Digits> {
    if c == '.' then Some(Point) else Marking(c)
  }

  function Marking(c: char): Option<Digits> {
    if c == 'e' || c == 'E' then Some(Mark) else None
  }

  /** The text ends a number of which so much stands before it. */
  predicate Ends(p: Digits, s: string)
    decreases |s|
  {
    if s == "" then p in {Zero, Integer, Fraction, Exponent}
    else Advance(p, s[0]).Some? && Ends(Advance(p, s[0]).value, s[1..])
  }

  /** The text of a number. */
  predicate IsNumeral(s: string) {
    Ends(Nothing, s)
  }

  lemma {:induction false} EndsChars(p: Digits, s: string)
    requires Ends(p, s)
    ensures forall i :: 0 <= i < |s| ==> IsNumeralChar(s[i])
    decreases |s|
  {
    if s != "" {
      EndsChars(Advance(p, s[0]).value, s[1..]);
      assert forall i :: 0 < i < |s| ==> s[i] == s[1..][i - 1];
    }
  }

  lemma NumeralChars(s: Numeral)
    ensures s != "" && (IsDigit(s[0]) || s[0] == '-') && forall i :: 0 <= i < |s| ==> IsNumeralChar(s[i])
  {
    EndsChars(Nothing, s);
  }

  type Numeral = s: string | IsNumeral(s) witness "0"

  datatype Json =
    | Null
    | Bool(truth: bool)
    | Number(numeral: Numeral)
    | String(text: string)
    | List(items: seq<Json>)
    | Object(members: seq<Member>)

  datatype Member = Member(name: string, value: Json)

  // ----------------------------------------------------------------- strings

  /** Characters that stand in a JSON string only behind a backslash. */
  predicate IsEscaped(c: char) {
    c == '"' || c == '\\' || IsControl(c)
  }

  predicate IsControl(c: char) {
    c as int < 32
  }

  function HexDigit(d: nat): char
    requires d < 16
  {
    if d < 10 then Digit(d) else ('a' as int + d - 10) as char
  }

  /** What follows the backslash of an escaped character. */
  function EscapeTail(c: char): string
    requires IsEscaped(c)
  {
    if c == '"' || c == '\\' then [c]
    else if c as int == 8 then "b"
    else if c as int == 9 then "t"
    else if c as int == 10 then "n"
    else if c as int == 12 then "f"
    else if c as int == 13 then "r"
    else ['u', '0', '0', HexDigit(c as int / 16), HexDigit(c as int % 16)]
  }

  function EscapeChar(c: char): string {
    if IsEscaped(c) then ['\\'] + EscapeTail(c) else [c]
  }

  function Escape(s: string): string {
    if s == "" then "" else EscapeChar(s[0]) + Escape(s[1..])
  }

  function HexValue(c: char): Option<nat> {
    if IsDigit(c) then Some(c as int - '0' as int)
    else if 'a' <= c <= 'f' then Some(c as int - 'a' as int + 10)
    else if 'A' <= c <= 'F' then Some(c as int - 'A' as int + 10)
    else None
  }

  /** Four hexadecimal digits, as a number below the surrogates. */
  function HexCode(s: string): Option<char>
    requires |s| == 4
  {
    if HexValue(s[0]).None? || HexValue(s[1]).None? || HexValue(s[2]).None? || HexValue(s[3]).None? then None
    else
      var code := 4096 * HexValue(s[0]).value + 256 * HexValue(s[1]).value + 16 * HexValue(s[2]).value + HexValue(s[3]).value;
      if code < 0xD800 then Some(code as char) else None
  }

  function ShortEscape(c: char): Option<char> {
    if c == '"' || c == '\\' || c == '/' then Some(c)
    else if c == 'b' then Some(8 as char)
    else if c == 't' then Some(9 as char)
    else if c == 'n' then Some(10 as char)
    else if c == 'f' then Some(12 as char)
    else if c == 'r' then Some(13 as char)
    else None
  }

  /** The character at the start of string text, and what follows it; none for a quote or an invalid escape. */
  function ParseChar(s: string): (r: Option<(char, string)>)
    ensures r.Some? ==> |r.value.1| < |s|
  {
    if s == "" || s[0] == '"' || IsControl(s[0]) then None
    else if s[0] != '\\' then Some((s[0], s[1..]))
    else if |s| >= 2 && ShortEscape(s[1]).Some? then Some((ShortEscape(s[1]).value, s[2..]))
    else if |s| >= 6 && s[1] == 'u' && HexCode(s[2..6]).Some? then Some((HexCode(s[2..6]).value, s[6..]))
    else None
  }

  /** The text up to the closing quote, and what follows it. */
  function ParseString(s: string): (r: Option<(string, string)>)
    ensures r.Some? ==> |r.value.0| + |r.value.1| < |s|
    decreases |s|
  {
    if s != "" && s[0] == '"' then Some(("", s[1..]))
    else
      match ParseChar(s)
      case None => None
      case Some((c, rest)) =>
        match ParseString(rest)
        case None => None
        case Some((text, end)) => Some(([c] + text, end))
  }

  lemma HexDigitValue(d: nat)
    requires d < 16
    ensures HexValue(HexDigit(d)) == Some(d)
  {
  }

  lemma ParseEscapedChar(c: char, rest: string)
    ensures ParseChar(EscapeChar(c) + rest) == Some((c, rest))
    ensures EscapeChar(c) != "" && EscapeChar(c)[0] != '"'
  {
    var s := EscapeChar(c) + rest;
    if !IsEscaped(c) {
      assert s[1..] == rest;
    } else if |EscapeTail(c)| == 1 {
      assert s[1] == EscapeTail(c)[0] && s[2..] == rest;
    } else {
      var n := c as int;
      HexDigitValue(n / 16);
      HexDigitValue(n % 16);
      var code := ['0', '0', HexDigit(n / 16), HexDigit(n % 16)];
      assert s == ['\\', 'u'] + code + rest;
      assert s[2..6] == code && s[6..] == rest && s[1] == 'u';
      assert HexValue('0') == Some(0);
      assert HexCode(code) == Some(c);
    }
  }

  lemma MoreString(s: string, c: char, more: string)
    requires s != "" && s[0] != '"' && ParseChar(s) == Some((c, more)) && ParseString(more).Some?
    ensures ParseString(s) == Some(([c] + ParseString(more).value.0, ParseString(more).value.1))
  {
    hide ParseChar;
  }

  lemma EndOfString(rest: string)
    ensures ParseString(['"'] + rest) == Some(("", rest))
  {
    hide ParseChar;
    assert (['"'] + rest)[1..] == rest;
  }

  /** A printed string is read back up to its closing quote. */
  lemma {:induction false} ParseEscaped(text: string, rest: string)
    ensures ParseString(Escape(text) + ['"'] + rest) == Some((text, rest))
  {
    hide ParseString, ParseChar, EscapeChar;
    var s := Escape(text) + ['"'] + rest;
    if text == "" {
      EndOfString(rest);
      assert s == ['"'] + rest;
    } else {
      var more := Escape(text[1..]) + ['"'] + rest;
      ParseEscaped(text[1..], rest);
      ParseEscapedChar(text[0], more);
      assert s == EscapeChar(text[0]) + more;
      MoreString(s, text[0], more);
      assert text == [text[0]] + text[1..];
    }
  }

  // ---------------------------------------------------------------- printing

  function Comma(spaced: bool): string {
    if spaced then ", " else ","
  }

  function Colon(spaced: bool): string {
    if spaced then ": " else ":"
  }

  function Quoted(s: string): string {
    ['"'] + Escape(s) + ['"']
  }

  function Print(j: Json, spaced: bool): string
    decreases j
  {
    match j
    case Null => "null"
    case Bool(truth) => if truth then "true" else "false"
    case Number(numeral) => numeral
    case String(text) => Quoted(text)
    case List(items) => "[" + PrintItems(items, spaced) + "]"
    case Object(members) => "{" + PrintMembers(members, spaced) + "}"
  }

  function PrintItems(items: seq<Json>, spaced: bool): string
    decreases items
  {
    if items == [] then ""
    else if |items| == 1 then Print(items[0], spaced)
    else Print(items[0], spaced) + Comma(spaced) + PrintItems(items[1..], spaced)
  }

  function PrintMember(m: Member, spaced: bool): string
    decreases m
  {
    Quoted(m.name) + Colon(spaced) + Print(m.value, spaced)
  }

  function PrintMembers(members: seq<Member>, spaced: bool): string
    decreases members
  {
    if members == [] then ""
    else if |members| == 1 then PrintMember(members[0], spaced)
    else PrintMember(members[0], spaced) + Comma(spaced) + PrintMembers(members[1..], spaced)
  }

  // ----------------------------------------------------------------- parsing

  function SkipSpaces(s: string): (r: string)
    ensures |r| <= |s|
  {
    if s != "" && s[0] == ' ' then SkipSpaces(s[1..]) else s
  }

  /** How many characters at the start belong to a number. */
  function NumeralLength(s: string): (n: nat)
    ensures n <= |s| && forall i :: 0 <= i < n ==> IsNumeralChar(s[i])
  {
    if s == "" || !IsNumeralChar(s[0]) then 0 else 1 + NumeralLength(s[1..])
  }

  function ParseWord(s: string, word: string, meaning: Json): (r: Option<(Json, string)>)
    requires word != ""
    ensures r.Some? ==> |r.value.1| < |s|
  {
    if word <= s then Some((meaning, s[|word|..])) else None
  }

  /** One value, and what follows it. */
  function ParseValue(s: string): (r: Option<(Json, string)>)
    ensures r.Some? ==> |r.value.1| < |s|
    decreases |s|, 2
  {
    var t := SkipSpaces(s);
    if t == "" then None
    else if t[0] == '"' then
      match ParseString(t[1..])
      case None => None
      case Some((text, rest)) => Some((String(text), rest))
    else if t[0] == '[' then
      var inner := SkipSpaces(t[1..]);
      if inner != "" && inner[0] == ']' then Some((List([]), inner[1..]))
      else
        match ParseItems(inner)
        case None => None
        case Some((items, rest)) => Some((List(items), rest))
    else if t[0] == '{' then
      var inner := SkipSpaces(t[1..]);
      if inner != "" && inner[0] == '}' then Some((Object([]), inner[1..]))
      else
        match ParseMembers(inner)
        case None => None
        case Some((members, rest)) => Some((Object(members), rest))
    else if IsDigit(t[0]) || t[0] == '-' then
      var n := NumeralLength(t);
      if IsNumeral(t[..n]) then Some((Number(t[..n]), t[n..])) else None
    else if t[0] == 't' then ParseWord(t, "true", Bool(true))
    else if t[0] == 'f' then ParseWord(t, "false", Bool(false))
    else ParseWord(t, "null", Null)
  }

  /** Values between commas, up to the closing bracket. */
  function ParseItems(s: string): (r: Option<(seq<Json>, string)>)
    ensures r.Some? ==> |r.value.1| < |s|
    decreases |s|, 3
  {
    match ParseValue(s)
    case None => None
    case Some((item, rest)) =>
      var next := SkipSpaces(rest);
      if next == "" then None
      else if next[0] == ']' then Some(([item], next[1..]))
      else if next[0] != ',' then None
      else
        match ParseItems(next[1..])
        case None => None
        case Some((items, end)) => Some(([item] + items, end))
  }

  /** A name, a colon and a value. */
  function ParseMember(s: string): (r: Option<(Member, string)>)
    ensures r.Some? ==> |r.value.1| < |s|
    decreases |s|, 3
  {
    var t := SkipSpaces(s);
    if t == "" || t[0] != '"' then None
    else
      match ParseString(t[1..])
      case None => None
      case Some((name, rest)) =>
        var next := SkipSpaces(rest);
        if next == "" || next[0] != ':' then None
        else
          match ParseValue(next[1..])
          case None => None
          case Some((value, end)) => Some((Member(name, value), end))
  }

  function ParseMembers(s: string): (r: Option<(seq<Member>, string)>)
    ensures r.Some? ==> |r.value.1| < |s|
    decreases |s|, 4
  {
    match ParseMember(s)
    case None => None
    case Some((member, rest)) =>
      var next := SkipSpaces(rest);
      if next == "" then None
      else if next[0] == '}' then Some(([member], next[1..]))
      else if next[0] != ',' then None
      else
        match ParseMembers(next[1..])
        case None => None
        case Some((members, end)) => Some(([member] + members, end))
  }

  /** `JSON.parse`: one value and nothing after it. */
  function Parse(s: string): Option<Json> {
    match ParseValue(s)
    case None => None
    case Some((j, rest)) => if SkipSpaces(rest) == "" then Some(j) else None
  }

  // -------------------------------------------------------------- round trip

  predicate Stops(rest: string) {
    rest == "" || !IsNumeralChar(rest[0])
  }

  lemma {:induction false} NumeralLengthOf(numeral: string, rest: string)
    requires (forall i :: 0 <= i < |numeral| ==> IsNumeralChar(numeral[i])) && Stops(rest)
    ensures NumeralLength(numeral + rest) == |numeral|
  {
    var s := numeral + rest;
    if numeral == "" {
      assert s == rest;
    } else {
      NumeralLengthOf(numeral[1..], rest);
      assert s[1..] == numeral[1..] + rest;
    }
  }

  lemma ParseNumeral(numeral: Numeral, rest: string)
    requires Stops(rest)
    ensures ParseValue(numeral + rest) == Some((Number(numeral), rest))
  {
    hide ParseString, ParseItems, ParseMembers, NumeralLength, Ends;
    NumeralChars(numeral);
    NumeralLengthOf(numeral, rest);
    var s := numeral + rest;
    assert s[..|numeral|] == numeral && s[|numeral|..] == rest;
  }

  lemma ParseConstant(j: Json, spaced: bool, rest: string)
    requires j.Null? || j.Bool?
    ensures ParseValue(Print(j, spaced) + rest) == Some((j, rest))
  {
    hide ParseString, ParseItems, ParseMembers, NumeralLength;
    var word := Print(j, spaced);
    var s := word + rest;
    assert word <= s && s[|word|..] == rest;
  }

  lemma ParseAfterQuote(text: string, rest: string)
    ensures var s := Quoted(text) + rest;
            s != "" && s[0] == '"' && ParseString(s[1..]) == Some((text, rest))
  {
    hide ParseString, Escape;
    ParseEscaped(text, rest);
    var s := Quoted(text) + rest;
    assert s[1..] == Escape(text) + ['"'] + rest;
  }

  lemma ParseQuoted(text: string, rest: string)
    ensures ParseValue(Quoted(text) + rest) == Some((String(text), rest))
  {
    hide ParseString, ParseItems, ParseMembers, NumeralLength, Quoted;
    ParseAfterQuote(text, rest);
  }

  /** A printed value starts with no space, bracket or comma. */
  lemma PrintStarts(j: Json, spaced: bool)
    ensures Print(j, spaced) != "" && Print(j, spaced)[0] !in {' ', ']', '}', ',', ':'}
  {
  }

  lemma PrintItemsStarts(items: seq<Json>, spaced: bool)
    requires items != []
    ensures PrintItems(items, spaced) != "" && PrintItems(items, spaced)[0] !in {' ', ']'}
  {
    hide Print;
    PrintStarts(items[0], spaced);
  }

  lemma SpacesBefore(s: string)
    ensures ParseValue(" " + s) == ParseValue(s) && ParseMember(" " + s) == ParseMember(s)
    ensures ParseItems(" " + s) == ParseItems(s) && ParseMembers(" " + s) == ParseMembers(s)
  {
    hide ParseString, NumeralLength;
    assert (" " + s)[1..] == s;
    assert SkipSpaces(" " + s) == SkipSpaces(s);
    assert ParseValue(" " + s) == ParseValue(s);
    assert ParseMember(" " + s) == ParseMember(s);
  }

  /** What parsing makes of the end of a list. */
  lemma LastItem(item: Json, s: string, rest: string)
    requires ParseValue(s) == Some((item, "]" + rest))
    ensures ParseItems(s) == Some(([item], rest))
  {
    assert ("]" + rest)[1..] == rest;
  }

  lemma MoreItems(item: Json, s: string, spaced: bool, more: string)
    requires ParseValue(s) == Some((item, Comma(spaced) + more)) && ParseItems(more).Some?
    ensures ParseItems(s) == Some(([item] + ParseItems(more).value.0, ParseItems(more).value.1))
  {
    hide ParseValue, IsNumeral, Print, Escape;
    SpacesBefore(more);
    assert (Comma(spaced) + more)[1..] == if spaced then " " + more else more;
  }

  lemma LastMember(m: Member, s: string, rest: string)
    requires ParseMember(s) == Some((m, "}" + rest))
    ensures ParseMembers(s) == Some(([m], rest))
  {
    hide ParseMember;
    assert ("}" + rest)[1..] == rest;
  }

  lemma MoreMembers(m: Member, s: string, spaced: bool, more: string)
    requires ParseMember(s) == Some((m, Comma(spaced) + more)) && ParseMembers(more).Some?
    ensures ParseMembers(s) == Some(([m] + ParseMembers(more).value.0, ParseMembers(more).value.1))
  {
    hide ParseMember;
    SpacesBefore(more);
    assert (Comma(spaced) + more)[1..] == if spaced then " " + more else more;
  }

  lemma AfterColon(spaced: bool, after: string)
    ensures var colon := Colon(spaced) + after;
            SkipSpaces(colon) == colon && colon[0] == ':' && ParseValue(colon[1..]) == ParseValue(after)
  {
    hide ParseValue;
    SpacesBefore(after);
    var colon := Colon(spaced) + after;
    assert colon[1..] == if spaced then " " + after else after;
  }

  lemma MemberOf(s: string, name: string, colon: string, value: Json, rest: string)
    requires s != "" && s[0] == '"' && ParseString(s[1..]) == Some((name, colon))
    requires colon != "" && colon[0] == ':' && SkipSpaces(colon) == colon && ParseValue(colon[1..]) == Some((value, rest))
    ensures ParseMember(s) == Some((Member(name, value), rest))
  {
    hide ParseValue, ParseString;
    assert SkipSpaces(s) == s;
  }

  lemma ParsesMember(name: string, value: Json, spaced: bool, after: string, rest: string)
    requires ParseValue(after) == Some((value, rest))
    ensures ParseMember(Quoted(name) + Colon(spaced) + after) == Some((Member(name, value), rest))
  {
    hide ParseValue, ParseString, ParseMember, SkipSpaces, Quoted, Colon, Escape;
    var colon := Colon(spaced) + after;
    ParseAfterQuote(name, colon);
    AfterColon(spaced, after);
    assert Quoted(name) + Colon(spaced) + after == Quoted(name) + colon;
    MemberOf(Quoted(name) + colon, name, colon, value, rest);
  }

  lemma ParsesList(items: seq<Json>, inner: string, rest: string)
    requires inner != "" && inner[0] !in {' ', ']'} && ParseItems(inner) == Some((items, rest))
    ensures ParseValue("[" + inner) == Some((List(items), rest))
  {
    hide ParseItems;
    assert ("[" + inner)[1..] == inner;
  }

  lemma ParsesObject(members: seq<Member>, inner: string, rest: string)
    requires inner != "" && inner[0] == '"' && ParseMembers(inner) == Some((members, rest))
    ensures ParseValue("{" + inner) == Some((Object(members), rest))
  {
    hide ParseMembers;
    assert ("{" + inner)[1..] == inner;
  }

  lemma ParsesEmpty(rest: string)
    ensures ParseValue("[]" + rest) == Some((List([]), rest)) && ParseValue("{}" + rest) == Some((Object([]), rest))
  {
    hide ParseItems, ParseMembers;
    assert ("[]" + rest)[1..] == "]" + rest && ("{}" + rest)[1..] == "}" + rest;
    assert ("]" + rest)[1..] == rest && ("}" + rest)[1..] == rest;
  }

  /** What is printed, with whatever follows it, is read back as the value and what follows it. */
  lemma {:induction false} ParsePrinted(j: Json, spaced: bool, rest: string)
    requires Stops(rest)
    ensures ParseValue(Print(j, spaced) + rest) == Some((j, rest))
    decreases j
  {
    hide ParseValue, ParseItems, ParseMembers, PrintItems, PrintMembers, Quoted;
    match j
    case Null => ParseConstant(j, spaced, rest);
    case Bool(_) => ParseConstant(j, spaced, rest);
    case Number(numeral) => ParseNumeral(numeral, rest);
    case String(text) => ParseQuoted(text, rest);
    case List(items) =>
      if items == [] {
        PrintNothing(spaced);
        ParsesEmpty(rest);
        assert Print(j, spaced) + rest == "[]" + rest;
      } else {
        var inner := PrintItems(items, spaced) + "]" + rest;
        ParsePrintedItems(items, spaced, rest);
        PrintItemsStarts(items, spaced);
        ParsesList(items, inner, rest);
        assert Print(j, spaced) + rest == "[" + inner;
      }
    case Object(members) =>
      if members == [] {
        PrintNothing(spaced);
        ParsesEmpty(rest);
        assert Print(j, spaced) + rest == "{}" + rest;
      } else {
        var inner := PrintMembers(members, spaced) + "}" + rest;
        ParsePrintedMembers(members, spaced, rest);
        PrintMembersStarts(members, spaced);
        ParsesObject(members, inner, rest);
        assert Print(j, spaced) + rest == "{" + inner;
      }
  }

  lemma PrintNothing(spaced: bool)
    ensures PrintItems([], spaced) == "" && PrintMembers([], spaced) == ""
  {
  }

  lemma PrintMembersStarts(members: seq<Member>, spaced: bool)
    requires members != []
    ensures PrintMembers(members, spaced) != "" && PrintMembers(members, spaced)[0] == '"'
  {
    hide Print;
  }

  lemma {:induction false} ParsePrintedItems(items: seq<Json>, spaced: bool, rest: string)
    requires items != []
    ensures ParseItems(PrintItems(items, spaced) + "]" + rest) == Some((items, rest))
    decreases items
  {
    hide ParseValue, ParseItems, Print;
    var first := Print(items[0], spaced);
    if |items| == 1 {
      ParsePrinted(items[0], spaced, "]" + rest);
      LastItem(items[0], first + ("]" + rest), rest);
      assert PrintItems(items, spaced) + "]" + rest == first + ("]" + rest);
      assert items == [items[0]];
    } else {
      var more := PrintItems(items[1..], spaced) + "]" + rest;
      ParsePrintedItems(items[1..], spaced, rest);
      ParsePrinted(items[0], spaced, Comma(spaced) + more);
      MoreItems(items[0], first + (Comma(spaced) + more), spaced, more);
      assert PrintItems(items, spaced) + "]" + rest == first + (Comma(spaced) + more);
      assert items == [items[0]] + items[1..];
    }
  }

  lemma {:induction false} ParsePrintedMember(m: Member, spaced: bool, rest: string)
    requires Stops(rest)
    ensures ParseMember(PrintMember(m, spaced) + rest) == Some((m, rest))
    decreases m
  {
    hide ParseValue, ParseMember, Print, Quoted, Colon;
    var after := Print(m.value, spaced) + rest;
    ParsePrinted(m.value, spaced, rest);
    ParsesMember(m.name, m.value, spaced, after, rest);
    assert PrintMember(m, spaced) + rest == Quoted(m.name) + Colon(spaced) + after;
  }

  lemma {:induction false} ParsePrintedMembers(members: seq<Member>, spaced: bool, rest: string)
    requires members != []
    ensures ParseMembers(PrintMembers(members, spaced) + "}" + rest) == Some((members, rest))
    decreases members
  {
    hide ParseMember, ParseMembers, PrintMember;
    var first := PrintMember(members[0], spaced);
    if |members| == 1 {
      ParsePrintedMember(members[0], spaced, "}" + rest);
      LastMember(members[0], first + ("}" + rest), rest);
      assert PrintMembers(members, spaced) + "}" + rest == first + ("}" + rest);
      assert members == [members[0]];
    } else {
      var more := PrintMembers(members[1..], spaced) + "}" + rest;
      ParsePrintedMembers(members[1..], spaced, rest);
      ParsePrintedMember(members[0], spaced, Comma(spaced) + more);
      MoreMembers(members[0], first + (Comma(spaced) + more), spaced, more);
      assert PrintMembers(members, spaced) + "}" + rest == first + (Comma(spaced) + more);
      assert members == [members[0]] + members[1..];
    }
  }

  /** Every value is parsed back from its text, whichever spacing it is printed with. */
  lemma ParsePrint(j: Json, spaced: bool)
    ensures Parse(Print(j, spaced)) == Some(j)
  {
    hide ParseValue, Print;
    ParsePrinted(j, spaced, "");
    assert Print(j, spaced) + "" == Print(j, spaced);
  }

  /** A text that parses to a string is longer than the string. */
  lemma ParsedStringIsShorter(s: string, t: string)
    requires Parse(s) == Some(String(t))
    ensures |t| < |s|
  {
    hide ParseString, ParseItems, ParseMembers, NumeralLength;
  }
}
