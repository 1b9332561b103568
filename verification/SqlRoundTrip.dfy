/** Every statement the repositories write is read back as the statement that was meant. */
module SqlRoundTrip {
  import opened Common
  import opened SqlText
  import opened Strings

  // ------------------------------------------------------- lists, as tokens

  function WordTokens(words: seq<string>): seq<Token> {
    if words == [] then []
    else if |words| == 1 then [Word(words[0])]
    else [Word(words[0]), Sign(',')] + WordTokens(words[1..])
  }

  function ParamTokens(numbers: seq<nat>): seq<Token> {
    if numbers == [] then []
    else if |numbers| == 1 then [Param(numbers[0])]
    else [Param(numbers[0]), Sign(',')] + ParamTokens(numbers[1..])
  }

  function ClauseTokens(clauses: seq<Clause>, separator: Token): seq<Token> {
    if clauses == [] then []
    else
      var first := [Word(clauses[0].column), Sign('='), Param(clauses[0].number)];
      if |clauses| == 1 then first else first + [separator] + ClauseTokens(clauses[1..], separator)
  }

  lemma CommaSeparates(rest: string)
    ensures Scan(", " + rest) == [Sign(',')] + Scan(rest)
  {
    hide Scan;
    ScanSign(' ', rest);
    ScanSign(',', " " + rest);
    assert ", " + rest == "," + (" " + rest);
  }

  lemma AndSeparates(rest: string)
    ensures Scan(" AND " + rest) == [Word("AND")] + Scan(rest)
  {
    hide Scan;
    ScanSign(' ', rest);
    ScanWord("AND", " " + rest);
    ScanSign(' ', "AND" + (" " + rest));
    assert " AND " + rest == " " + ("AND" + (" " + rest));
  }

  lemma NamesAreWords(s: string)
    requires IsName(s)
    ensures IsWord(s)
  {
  }

  lemma {:induction false} ScanWords(words: seq<string>, rest: string)
    requires words != [] && AllNames(words) && Breaks(rest)
    ensures Scan(Join(words, ", ") + rest) == WordTokens(words) + Scan(rest)
    decreases |words|
  {
    hide Scan, IsName;
    NamesAreWords(words[0]);
    if |words| == 1 {
      ScanWord(words[0], rest);
    } else {
      var more := Join(words[1..], ", ") + rest;
      ScanWords(words[1..], rest);
      CommaSeparates(more);
      ScanWord(words[0], ", " + more);
      assert Join(words, ", ") + rest == words[0] + (", " + more);
    }
  }

  lemma {:induction false} ScanParams(from: nat, count: nat, rest: string)
    requires count > 0 && Breaks(rest)
    ensures Scan(Join(Placeholders(from, count), ", ") + rest) == ParamTokens(Numbers(from, count)) + Scan(rest)
    decreases count
  {
    hide Scan;
    var items := Placeholders(from, count);
    assert items[1..] == Placeholders(from + 1, count - 1);
    assert Numbers(from, count)[1..] == Numbers(from + 1, count - 1);
    if count == 1 {
      ScanParam(from, rest);
    } else {
      var more := Join(items[1..], ", ") + rest;
      ScanParams(from + 1, count - 1, rest);
      CommaSeparates(more);
      ScanParam(from, ", " + more);
      assert Join(items, ", ") + rest == "$" + Decimal(from) + (", " + more);
    }
  }

  lemma ScanClause(c: Clause, rest: string)
    requires IsName(c.column) && Breaks(rest)
    ensures Scan(ClauseText(c) + rest) == [Word(c.column), Sign('='), Param(c.number)] + Scan(rest)
  {
    hide Scan, IsName;
    NamesAreWords(c.column);
    var param := "$" + Decimal(c.number) + rest;
    ScanParam(c.number, rest);
    ScanSign(' ', param);
    ScanSign('=', " " + param);
    ScanSign(' ', "=" + (" " + param));
    ScanWord(c.column, " " + ("=" + (" " + param)));
    assert ClauseText(c) + rest == c.column + (" " + ("=" + (" " + param)));
  }

  function SeparatorText(comma: bool): string {
    if comma then ", " else " AND "
  }

  function SeparatorToken(comma: bool): Token {
    if comma then Sign(',') else Word("AND")
  }

  lemma SeparatorScans(comma: bool, rest: string)
    ensures Scan(SeparatorText(comma) + rest) == [SeparatorToken(comma)] + Scan(rest) && Breaks(SeparatorText(comma) + rest)
  {
    hide Scan;
    CommaSeparates(rest);
    AndSeparates(rest);
  }

  /** A list of clauses joined by `, ` or by ` AND `. */
  lemma {:induction false} ScanClauses(clauses: seq<Clause>, comma: bool, rest: string)
    requires clauses != [] && Named(clauses) && Breaks(rest)
    ensures Scan(Join(ClauseTexts(clauses), SeparatorText(comma)) + rest) ==
            ClauseTokens(clauses, SeparatorToken(comma)) + Scan(rest)
    decreases |clauses|
  {
    hide Scan, IsName, ClauseText, SeparatorText, SeparatorToken, Breaks, Join, ClauseTexts;
    var sep := SeparatorText(comma);
    JoinedClauses(clauses, sep, rest);
    if |clauses| == 1 {
      ScanClause(clauses[0], rest);
    } else {
      var more := Join(ClauseTexts(clauses[1..]), sep) + rest;
      ScanClauses(clauses[1..], comma, rest);
      SeparatorScans(comma, more);
      ScanClause(clauses[0], sep + more);
    }
  }

  lemma JoinedClauses(clauses: seq<Clause>, sep: string, rest: string)
    requires clauses != []
    ensures Join(ClauseTexts(clauses), sep) + rest ==
            if |clauses| == 1 then ClauseText(clauses[0]) + rest
            else ClauseText(clauses[0]) + (sep + (Join(ClauseTexts(clauses[1..]), sep) + rest))
  {
    hide ClauseText;
    assert ClauseTexts(clauses)[1..] == ClauseTexts(clauses[1..]);
  }

  // -------------------------------------------------- lists, read from tokens

  lemma ParseFirstWord(word: string, t: seq<Token>)
    ensures t == [] || t[0] != Sign(',') ==> ParseWords([Word(word)] + t) == Some(([word], t))
    ensures ParseWords(t).Some? ==>
              ParseWords([Word(word), Sign(',')] + t) == Some(([word] + ParseWords(t).value.0, ParseWords(t).value.1))
  {
    assert ([Word(word)] + t)[1..] == t && ([Word(word), Sign(',')] + t)[2..] == t;
  }

  lemma {:induction false} ParseWordTokens(words: seq<string>, rest: seq<Token>)
    requires words != [] && (rest == [] || rest[0] != Sign(','))
    ensures ParseWords(WordTokens(words) + rest) == Some((words, rest))
    decreases |words|
  {
    hide ParseWords;
    assert words == [words[0]] + words[1..];
    if |words| == 1 {
      ParseFirstWord(words[0], rest);
      assert words == [words[0]];
    } else {
      ParseWordTokens(words[1..], rest);
      ParseFirstWord(words[0], WordTokens(words[1..]) + rest);
      assert WordTokens(words) + rest == [Word(words[0]), Sign(',')] + (WordTokens(words[1..]) + rest);
    }
  }

  lemma ParseFirstParam(number: nat, t: seq<Token>)
    ensures t == [] || t[0] != Sign(',') ==> ParseParams([Param(number)] + t) == Some(([number], t))
    ensures ParseParams(t).Some? ==>
              ParseParams([Param(number), Sign(',')] + t) == Some(([number] + ParseParams(t).value.0, ParseParams(t).value.1))
  {
    assert ([Param(number)] + t)[1..] == t && ([Param(number), Sign(',')] + t)[2..] == t;
  }

  lemma {:induction false} ParseParamTokens(numbers: seq<nat>, rest: seq<Token>)
    requires numbers != [] && (rest == [] || rest[0] != Sign(','))
    ensures ParseParams(ParamTokens(numbers) + rest) == Some((numbers, rest))
    decreases |numbers|
  {
    hide ParseParams;
    assert numbers == [numbers[0]] + numbers[1..];
    if |numbers| == 1 {
      ParseFirstParam(numbers[0], rest);
      assert numbers == [numbers[0]];
    } else {
      ParseParamTokens(numbers[1..], rest);
      ParseFirstParam(numbers[0], ParamTokens(numbers[1..]) + rest);
      assert ParamTokens(numbers) + rest == [Param(numbers[0]), Sign(',')] + (ParamTokens(numbers[1..]) + rest);
    }
  }

  lemma ParseFirstClause(c: Clause, separator: Token, t: seq<Token>)
    ensures var first := [Word(c.column), Sign('='), Param(c.number)];
            && (t == [] || t[0] != separator ==> ParseClauses(first + t, separator) == Some(([c], t)))
            && (ParseClauses(t, separator).Some? ==>
                  ParseClauses(first + [separator] + t, separator) ==
                  Some(([c] + ParseClauses(t, separator).value.0, ParseClauses(t, separator).value.1)))
  {
    var first := [Word(c.column), Sign('='), Param(c.number)];
    assert (first + t)[3..] == t && (first + [separator] + t)[4..] == t;
  }

  lemma {:induction false} ParseClauseTokens(clauses: seq<Clause>, separator: Token, rest: seq<Token>)
    requires clauses != [] && (rest == [] || rest[0] != separator)
    ensures ParseClauses(ClauseTokens(clauses, separator) + rest, separator) == Some((clauses, rest))
    decreases |clauses|
  {
    hide ParseClauses;
    assert clauses == [clauses[0]] + clauses[1..];
    var first := [Word(clauses[0].column), Sign('='), Param(clauses[0].number)];
    if |clauses| == 1 {
      ParseFirstClause(clauses[0], separator, rest);
      assert clauses == [clauses[0]];
    } else {
      ParseClauseTokens(clauses[1..], separator, rest);
      var more := ClauseTokens(clauses[1..], separator) + rest;
      ParseFirstClause(clauses[0], separator, more);
      assert ClauseTokens(clauses, separator) + rest == first + [separator] + more;
    }
  }

  // -------------------------------------------------------- whole statements

  /** A keyword and the space after it. */
  lemma ScanKeyword(word: string, rest: string)
    requires IsWord(word)
    ensures Scan(word + (" " + rest)) == [Word(word)] + Scan(rest)
  {
    hide Scan;
    ScanWord(word, " " + rest);
    ScanSign(' ', rest);
  }

  lemma FirstToken(clauses: seq<Clause>, separator: Token)
    requires clauses != []
    ensures ClauseTokens(clauses, separator) != [] && ClauseTokens(clauses, separator)[0] == Word(clauses[0].column)
  {
  }

  lemma ScanConditions(conditions: seq<Clause>)
    requires conditions != [] && Named(conditions)
    ensures Breaks(ConditionText(conditions))
    ensures ParseConditions(Scan(ConditionText(conditions))) == Some(conditions)
    ensures |Scan(ConditionText(conditions))| > 1 && Scan(ConditionText(conditions))[0] == Word("WHERE")
    ensures Scan(ConditionText(conditions))[1] == Word(conditions[0].column)
  {
    hide Scan, ClauseTokens, Join, ClauseTexts, ParseClauses;
    var list := Join(ClauseTexts(conditions), " AND ");
    FirstToken(conditions, Word("AND"));
    ScanClauses(conditions, false, "");
    assert SeparatorText(false) == " AND " && SeparatorToken(false) == Word("AND");
    assert list + "" == list;
    ScanNothing();
    var t := ClauseTokens(conditions, Word("AND"));
    assert t + [] == t;
    ScanKeyword("WHERE", list);
    ScanSign(' ', "WHERE" + (" " + list));
    assert ConditionText(conditions) == " " + ("WHERE" + (" " + list));
    ParseClauseTokens(conditions, Word("AND"), []);
    assert ([Word("WHERE")] + t)[1..] == t;
  }

  lemma ScanNothing()
    ensures Scan("") == []
  {
  }

  lemma SelectReadBack(table: string, conditions: seq<Clause>)
    requires IsName(table) && conditions != [] && Named(conditions)
    ensures Parse(SelectText(table, conditions)) == Some(Select(table, conditions))
  {
    hide Scan, IsName, ConditionText, ParseConditions;
    var rest := ConditionText(conditions);
    ScanConditions(conditions);
    NamesAreWords(table);
    ScanWord(table, rest);
    ScanKeyword("FROM", table + rest);
    var from := "FROM" + (" " + (table + rest));
    ScanSign(' ', from);
    ScanSign('*', " " + from);
    ScanKeyword("SELECT", "*" + (" " + from));
    assert SelectText(table, conditions) == "SELECT" + (" " + ("*" + (" " + from)));
    assert Scan(SelectText(table, conditions)) == [Word("SELECT"), Sign('*'), Word("FROM"), Word(table)] + Scan(rest);
    assert ([Word("SELECT"), Sign('*'), Word("FROM"), Word(table)] + Scan(rest))[4..] == Scan(rest);
  }

  lemma DeleteReadBack(table: string, conditions: seq<Clause>)
    requires IsName(table) && conditions != [] && Named(conditions)
    ensures Parse(DeleteText(table, conditions)) == Some(Delete(table, conditions))
  {
    hide Scan, IsName, ConditionText, ParseConditions;
    var rest := ConditionText(conditions);
    ScanConditions(conditions);
    NamesAreWords(table);
    ScanWord(table, rest);
    ScanKeyword("FROM", table + rest);
    ScanKeyword("DELETE", "FROM" + (" " + (table + rest)));
    assert DeleteText(table, conditions) == "DELETE" + (" " + ("FROM" + (" " + (table + rest))));
    assert Scan(DeleteText(table, conditions)) == [Word("DELETE"), Word("FROM"), Word(table)] + Scan(rest);
    assert ([Word("DELETE"), Word("FROM"), Word(table)] + Scan(rest))[3..] == Scan(rest);
  }

  lemma ScanUpdate(table: string, rest: string)
    requires IsName(table)
    ensures Scan("UPDATE " + table + " SET " + rest) == [Word("UPDATE"), Word(table), Word("SET")] + Scan(rest)
  {
    hide Scan, IsName;
    NamesAreWords(table);
    ScanKeyword("SET", rest);
    ScanKeyword(table, "SET" + (" " + rest));
    ScanKeyword("UPDATE", table + (" " + ("SET" + (" " + rest))));
    assert "UPDATE " + table + " SET " + rest == "UPDATE" + (" " + (table + (" " + ("SET" + (" " + rest)))));
  }

  lemma ParsesAsUpdate(text: string, table: string, tail: seq<Token>)
    requires Scan(text) == [Word("UPDATE"), Word(table), Word("SET")] + tail
    ensures Parse(text) == ParseUpdate(table, tail)
  {
    hide Scan, ParseUpdate, ParseConditions, ParseInsert;
    assert Scan(text)[0] == Word("UPDATE") && Scan(text)[3..] == tail;
  }

  lemma UpdateReadBack(table: string, assignments: seq<Clause>, conditions: seq<Clause>)
    requires IsName(table) && assignments != [] && conditions != [] && Named(assignments) && Named(conditions)
    ensures Parse(UpdateText(table, assignments, conditions)) == Some(Update(table, assignments, conditions))
  {
    hide Scan, IsName, ConditionText, ParseConditions, ClauseTokens, Join, ClauseTexts, ParseClauses, Parse;
    var rest, list := ConditionText(conditions), Join(ClauseTexts(assignments), ", ");
    ScanConditions(conditions);
    ScanClauses(assignments, true, rest);
    assert SeparatorText(true) == ", " && SeparatorToken(true) == Sign(',');
    ScanUpdate(table, list + rest);
    assert UpdateText(table, assignments, conditions) == "UPDATE " + table + " SET " + (list + rest);
    var tail := ClauseTokens(assignments, Sign(',')) + Scan(rest);
    ParsesAsUpdate(UpdateText(table, assignments, conditions), table, tail);
    ParseClauseTokens(assignments, Sign(','), Scan(rest));
  }

  /** An update that assigns nothing is no statement. */
  lemma EmptyUpdateIsRefused(table: string, conditions: seq<Clause>)
    requires IsName(table) && conditions != [] && Named(conditions)
    ensures Parse(UpdateText(table, [], conditions)) == None
  {
    hide Scan, IsName, ConditionText, ParseConditions, Parse;
    var rest := ConditionText(conditions);
    ScanConditions(conditions);
    ScanUpdate(table, rest);
    assert UpdateText(table, [], conditions) == "UPDATE " + table + " SET " + rest;
    ParsesAsUpdate(UpdateText(table, [], conditions), table, Scan(rest));
    assert ParseClauses(Scan(rest), Sign(',')).None?;
  }

  /** The values part of an insertion, as tokens. */
  lemma ScanValues(n: nat)
    requires n > 0
    ensures Scan(") VALUES (" + (Join(Placeholders(1, n), ", ") + ")")) ==
            [Sign(')'), Word("VALUES"), Sign('(')] + (ParamTokens(Numbers(1, n)) + [Sign(')')])
  {
    hide Scan, ParamTokens, Join, Placeholders;
    var params := Join(Placeholders(1, n), ", ") + ")";
    ScanNothing();
    ScanSign(')', "");
    assert [')'] + "" == ")";
    ScanParams(1, n, ")");
    ScanSign('(', params);
    ScanKeyword("VALUES", "(" + params);
    var values := "VALUES" + (" " + ("(" + params));
    ScanSign(' ', values);
    ScanSign(')', " " + values);
    assert ") VALUES (" + params == ")" + (" " + values);
  }

  lemma ScanInsertHead(table: string, rest: string)
    requires IsName(table)
    ensures Scan("INSERT INTO " + table + " (" + rest) == [Word("INSERT"), Word("INTO"), Word(table), Sign('(')] + Scan(rest)
  {
    hide Scan, IsName;
    ScanSign('(', rest);
    NamesAreWords(table);
    ScanKeyword(table, "(" + rest);
    ScanKeyword("INTO", table + (" " + ("(" + rest)));
    ScanKeyword("INSERT", "INTO" + (" " + (table + (" " + ("(" + rest)))));
    assert "INSERT INTO " + table + " (" + rest == "INSERT" + (" " + ("INTO" + (" " + (table + (" " + ("(" + rest))))));
  }

  lemma ScanInsert(table: string, columns: seq<string>)
    requires IsName(table) && columns != [] && AllNames(columns)
    ensures Scan(InsertText(table, columns)) ==
            [Word("INSERT"), Word("INTO"), Word(table), Sign('(')] +
            (WordTokens(columns) +
             ([Sign(')'), Word("VALUES"), Sign('(')] + (ParamTokens(Numbers(1, |columns|)) + [Sign(')')])))
  {
    hide Scan, IsName, WordTokens, ParamTokens, Join, Placeholders, Numbers, AllNames;
    var list, placed := Join(columns, ", "), Join(Placeholders(1, |columns|), ", ");
    var values := ") VALUES (" + (placed + ")");
    ScanValues(|columns|);
    ScanWords(columns, values);
    ScanInsertHead(table, list + values);
    assert InsertText(table, columns) == "INSERT INTO " + table + " (" + (list + values) by {
      InsertTextParts(table, list, placed);
    }
  }

  lemma InsertTextParts(table: string, list: string, placed: string)
    ensures "INSERT INTO " + table + " (" + list + ") VALUES (" + placed + ")" ==
            "INSERT INTO " + table + " (" + (list + (") VALUES (" + (placed + ")")))
  {
  }

  lemma InsertReadBack(table: string, columns: seq<string>)
    requires IsName(table) && columns != [] && AllNames(columns)
    ensures Parse(InsertText(table, columns)) == Some(Insert(table, columns, Numbers(1, |columns|)))
  {
    hide Scan, IsName, WordTokens, ParamTokens, InsertText, ParseWords, ParseParams;
    var n := |columns|;
    ScanInsert(table, columns);
    var ends := ParamTokens(Numbers(1, n)) + [Sign(')')];
    var middle := [Sign(')'), Word("VALUES"), Sign('(')] + ends;
    var tail := WordTokens(columns) + middle;
    assert Scan(InsertText(table, columns))[4..] == tail && middle[3..] == ends;
    ParseWordTokens(columns, middle);
    ParseParamTokens(Numbers(1, n), [Sign(')')]);
  }
}
