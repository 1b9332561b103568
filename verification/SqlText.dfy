/**
 * The few shapes of SQL the repositories write, as text, and the reading of that
 * text by the in-memory client.
 */
module SqlText {
  import opened Common
  import opened Strings

  // ---------------------------------------------------------------- scanning

  datatype Token = Word(text: string) | Param(number: nat) | Sign(sign: char)

  predicate IsWordChar(c: char) {
    'a' <= c <= 'z' || 'A' <= c <= 'Z' || '0' <= c <= '9' || c == '_'
  }

  predicate IsWord(s: string) {
    s != "" && forall i :: 0 <= i < |s| ==> IsWordChar(s[i])
  }

  /** How many characters at the start belong to a word. */
  function WordLength(s: string): (n: nat)
    ensures n <= |s|
  {
    if s == "" || !IsWordChar(s[0]) then 0 else 1 + WordLength(s[1..])
  }

  function DigitCount(s: string): (n: nat)
    ensures n <= |s| && AllDigits(s[..n])
  {
    if s == "" || !IsDigit(s[0]) then 0 else 1 + DigitCount(s[1..])
  }

  function Scan(s: string): seq<Token>
    decreases |s|
  {
    if s == "" then []
    else if s[0] == ' ' then Scan(s[1..])
    else if s[0] == '$' then [Param(NumberOf(s[1..][..DigitCount(s[1..])]))] + Scan(s[1 + DigitCount(s[1..])..])
    else if IsWordChar(s[0]) then [Word(s[..WordLength(s)])] + Scan(s[WordLength(s)..])
    else [Sign(s[0])] + Scan(s[1..])
  }

  /** The text goes on with something that is not part of a word. */
  predicate Breaks(rest: string) {
    rest == "" || !IsWordChar(rest[0])
  }

  lemma {:induction false} WordLengthOf(word: string, rest: string)
    requires IsWord(word) && Breaks(rest)
    ensures WordLength(word + rest) == |word|
  {
    var s := word + rest;
    if |word| == 1 {
      assert s[1..] == rest;
    } else {
      WordLengthOf(word[1..], rest);
      assert s[1..] == word[1..] + rest;
    }
  }

  lemma {:induction false} DigitCountOf(digits: string, rest: string)
    requires AllDigits(digits) && Breaks(rest)
    ensures DigitCount(digits + rest) == |digits|
  {
    var s := digits + rest;
    if digits == "" {
      assert s == rest;
    } else {
      DigitCountOf(digits[1..], rest);
      assert s[1..] == digits[1..] + rest;
    }
  }

  lemma ScanWord(word: string, rest: string)
    requires IsWord(word) && Breaks(rest)
    ensures Scan(word + rest) == [Word(word)] + Scan(rest)
  {
    WordLengthOf(word, rest);
    var s := word + rest;
    assert s[0] == word[0] && s[..|word|] == word && s[|word|..] == rest;
  }

  lemma ScanParam(n: nat, rest: string)
    requires Breaks(rest)
    ensures Scan("$" + Decimal(n) + rest) == [Param(n)] + Scan(rest)
  {
    DecimalRoundTrip(n);
    DigitCountOf(Decimal(n), rest);
    var s := "$" + Decimal(n) + rest;
    assert s[1..] == Decimal(n) + rest;
    assert s[1..][..|Decimal(n)|] == Decimal(n) && s[1 + |Decimal(n)|..] == rest;
  }

  /** A character that stands for itself. */
  predicate IsSign(c: char) {
    !IsWordChar(c) && c != ' ' && c != '$'
  }

  lemma ScanSign(c: char, rest: string)
    ensures c == ' ' ==> Scan([c] + rest) == Scan(rest)
    ensures IsSign(c) ==> Scan([c] + rest) == [Sign(c)] + Scan(rest)
  {
    assert ([c] + rest)[1..] == rest;
  }

  // -------------------------------------------------------------- statements

  /** `column = $number`. */
  datatype Clause = Clause(column: string, number: nat)

  datatype Statement =
    | Insert(table: string, columns: seq<string>, values: seq<nat>)
    | Select(table: string, conditions: seq<Clause>)
    | Update(table: string, assignments: seq<Clause>, conditions: seq<Clause>)
    | Delete(table: string, conditions: seq<Clause>)

  /** A lower-case name: never one of the keywords, which are written in capitals. */
  predicate IsName(s: string) {
    s != "" && forall i :: 0 <= i < |s| ==> 'a' <= s[i] <= 'z' || '0' <= s[i] <= '9' || s[i] == '_'
  }

  predicate AllNames(names: seq<string>) {
    forall i :: 0 <= i < |names| ==> IsName(names[i])
  }

  predicate Named(clauses: seq<Clause>) {
    forall i :: 0 <= i < |clauses| ==> IsName(clauses[i].column)
  }

  /** `columns.map((_, i) => "$" + (i + 1))`. */
  function Placeholders(from: nat, count: nat): seq<string> {
    seq(count, i requires 0 <= i < count => "$" + Decimal(from + i))
  }

  function Numbers(from: nat, count: nat): seq<nat> {
    seq(count, i requires 0 <= i < count => from + i)
  }

  function ClauseText(c: Clause): string {
    c.column + " = $" + Decimal(c.number)
  }

  function ClauseTexts(clauses: seq<Clause>): seq<string> {
    seq(|clauses|, i requires 0 <= i < |clauses| => ClauseText(clauses[i]))
  }

  /** The clause of each column, numbered onwards. */
  function Clauses(columns: seq<string>, from: nat): seq<Clause> {
    seq(|columns|, i requires 0 <= i < |columns| => Clause(columns[i], from + i))
  }

  function InsertText(table: string, columns: seq<string>): string {
    "INSERT INTO " + table + " (" + Join(columns, ", ") + ") VALUES (" + Join(Placeholders(1, |columns|), ", ") + ")"
  }

  function ConditionText(conditions: seq<Clause>): string {
    " WHERE " + Join(ClauseTexts(conditions), " AND ")
  }

  function SelectText(table: string, conditions: seq<Clause>): string {
    "SELECT * FROM " + table + ConditionText(conditions)
  }

  function UpdateText(table: string, assignments: seq<Clause>, conditions: seq<Clause>): string {
    "UPDATE " + table + " SET " + Join(ClauseTexts(assignments), ", ") + ConditionText(conditions)
  }

  function DeleteText(table: string, conditions: seq<Clause>): string {
    "DELETE FROM " + table + ConditionText(conditions)
  }

  // ----------------------------------------------------------------- parsing

  /** Words between commas, and what follows. */
  function ParseWords(t: seq<Token>): Option<(seq<string>, seq<Token>)> {
    if t == [] || !t[0].Word? then None
    else if |t| > 1 && t[1] == Sign(',') then
      match ParseWords(t[2..])
      case None => None
      case Some((words, rest)) => Some(([t[0].text] + words, rest))
    else Some(([t[0].text], t[1..]))
  }

  function ParseParams(t: seq<Token>): Option<(seq<nat>, seq<Token>)> {
    if t == [] || !t[0].Param? then None
    else if |t| > 1 && t[1] == Sign(',') then
      match ParseParams(t[2..])
      case None => None
      case Some((numbers, rest)) => Some(([t[0].number] + numbers, rest))
    else Some(([t[0].number], t[1..]))
  }

  /** Clauses between separators, and what follows. */
  function ParseClauses(t: seq<Token>, separator: Token): Option<(seq<Clause>, seq<Token>)> {
    if |t| < 3 || !t[0].Word? || t[1] != Sign('=') || !t[2].Param? then None
    else if |t| > 3 && t[3] == separator then
      match ParseClauses(t[4..], separator)
      case None => None
      case Some((clauses, rest)) => Some(([Clause(t[0].text, t[2].number)] + clauses, rest))
    else Some(([Clause(t[0].text, t[2].number)], t[3..]))
  }

  /** `WHERE` and its conditions, up to the end. */
  function ParseConditions(t: seq<Token>): Option<seq<Clause>> {
    if t == [] then Some([])
    else if t[0] != Word("WHERE") then None
    else
      match ParseClauses(t[1..], Word("AND"))
      case None => None
      case Some((clauses, rest)) => if rest == [] then Some(clauses) else None
  }

  function ParseInsert(table: string, t: seq<Token>): Option<Statement> {
    match ParseWords(t)
    case None => None
    case Some((columns, rest)) =>
      if |rest| < 3 || rest[..3] != [Sign(')'), Word("VALUES"), Sign('(')] then None
      else
        match ParseParams(rest[3..])
        case None => None
        case Some((values, end)) =>
          if end == [Sign(')')] && |values| == |columns| then Some(Insert(table, columns, values)) else None
  }

  function ParseUpdate(table: string, t: seq<Token>): Option<Statement> {
    match ParseClauses(t, Sign(','))
    case None => None
    case Some((assignments, rest)) =>
      match ParseConditions(rest)
      case None => None
      case Some(conditions) => if rest == [] then None else Some(Update(table, assignments, conditions))
  }

  function Parse(text: string): Option<Statement> {
    var t := Scan(text);
    if |t| >= 4 && t[..2] == [Word("INSERT"), Word("INTO")] && t[2].Word? && t[3] == Sign('(') then ParseInsert(t[2].text, t[4..])
    else if |t| >= 4 && t[..3] == [Word("SELECT"), Sign('*'), Word("FROM")] && t[3].Word? then
      match ParseConditions(t[4..])
      case None => None
      case Some(conditions) => Some(Select(t[3].text, conditions))
    else if |t| >= 3 && t[0] == Word("UPDATE") && t[1].Word? && t[2] == Word("SET") then ParseUpdate(t[1].text, t[3..])
    else if |t| >= 3 && t[..2] == [Word("DELETE"), Word("FROM")] && t[2].Word? then
      match ParseConditions(t[3..])
      case None => None
      case Some(conditions) => Some(Delete(t[2].text, conditions))
    else None
  }
}
