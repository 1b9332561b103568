/** The in-memory SQL client: tables of rows, changed by the statements it reads. */
module InMemorySql {
  import opened Common
  import opened Records
  import opened SqlText

  type Row = Entries

  datatype SqlError = CannotParse(text: string)

  /** `params[number - 1]`. */
  function ParamAt(params: seq<Value>, number: nat): Value {
    if 1 <= number <= |params| then params[number - 1] else Undefined
  }

  predicate Matches(row: Row, conditions: seq<Clause>, params: seq<Value>) {
    forall i :: 0 <= i < |conditions| ==> Get(row, conditions[i].column) == ParamAt(params, conditions[i].number)
  }

  /** The row after the assignments, in their order. */
  function Assigned(row: Row, assignments: seq<Clause>, params: seq<Value>): Row {
    if assignments == [] then row
    else Put(Assigned(row, Front(assignments), params), Last(assignments).column, ParamAt(params, Last(assignments).number))
  }

  function Selected(rows: seq<Row>, conditions: seq<Clause>, params: seq<Value>): seq<Row> {
    if rows == [] then []
    else Selected(Front(rows), conditions, params) + if Matches(Last(rows), conditions, params) then [Last(rows)] else []
  }

  function Remaining(rows: seq<Row>, conditions: seq<Clause>, params: seq<Value>): seq<Row> {
    if rows == [] then []
    else Remaining(Front(rows), conditions, params) + if Matches(Last(rows), conditions, params) then [] else [Last(rows)]
  }

  function Changed(rows: seq<Row>, assignments: seq<Clause>, conditions: seq<Clause>, params: seq<Value>): seq<Row> {
    seq(|rows|, i requires 0 <= i < |rows| =>
      if Matches(rows[i], conditions, params) then Assigned(rows[i], assignments, params) else rows[i])
  }

  lemma {:induction false} RemainingConcat(a: seq<Row>, b: seq<Row>, conditions: seq<Clause>, params: seq<Value>)
    ensures Remaining(a + b, conditions, params) == Remaining(a, conditions, params) + Remaining(b, conditions, params)
    decreases |b|
  {
    hide Matches;
    if b == [] {
      assert a + b == a;
    } else {
      assert Front(a + b) == a + Front(b);
      RemainingConcat(a, Front(b), conditions, params);
    }
  }

  /** Every row is selected or remains, as it matches or does not. */
  lemma {:induction false} RowsAreSplit(rows: seq<Row>, conditions: seq<Clause>, params: seq<Value>)
    ensures multiset(Selected(rows, conditions, params)) + multiset(Remaining(rows, conditions, params)) == multiset(rows)
    ensures forall r :: r in Selected(rows, conditions, params) ==> Matches(r, conditions, params)
    ensures forall r :: r in Remaining(rows, conditions, params) ==> !Matches(r, conditions, params)
  {
    hide Matches, Selected, Remaining;
    SplitStep(rows, conditions, params);
    if rows != [] {
      var f, x := Front(rows), Last(rows);
      RowsAreSplit(f, conditions, params);
      assert rows == f + [x];
    }
  }

  lemma SplitStep(rows: seq<Row>, conditions: seq<Clause>, params: seq<Value>)
    ensures if rows == [] then Selected(rows, conditions, params) == [] && Remaining(rows, conditions, params) == []
            else if Matches(Last(rows), conditions, params) then
              Selected(rows, conditions, params) == Selected(Front(rows), conditions, params) + [Last(rows)] &&
              Remaining(rows, conditions, params) == Remaining(Front(rows), conditions, params)
            else
              Selected(rows, conditions, params) == Selected(Front(rows), conditions, params) &&
              Remaining(rows, conditions, params) == Remaining(Front(rows), conditions, params) + [Last(rows)]
  {
    hide Matches;
  }

  function Paired(columns: seq<string>, numbers: seq<nat>): seq<Clause>
    requires |columns| == |numbers|
  {
    seq(|columns|, i requires 0 <= i < |columns| => Clause(columns[i], numbers[i]))
  }

  function RowsIn(tables: map<string, seq<Row>>, table: string): seq<Row> {
    if table in tables then tables[table] else []
  }

  class InMemorySqlClient {
    var tables: map<string, seq<Row>>

    constructor ()
      ensures tables == map[]
    {
      tables := map[];
    }

    /** Run one statement; text that is no statement changes nothing. */
    method Query(text: string, params: seq<Value>) returns (result: Result<seq<Row>, SqlError>)
      modifies this
      ensures match Parse(text)
              case None => result == Err(CannotParse(text)) && tables == old(tables)
              case Some(Insert(table, columns, values)) =>
                |columns| == |values| ==>
                result == Ok([]) &&
                tables == old(tables)[table := RowsIn(old(tables), table) + [Assigned([], Paired(columns, values), params)]]
              case Some(Select(table, conditions)) =>
                result == Ok(Selected(RowsIn(old(tables), table), conditions, params)) &&
                tables == old(tables)[table := RowsIn(old(tables), table)]
              case Some(Update(table, assignments, conditions)) =>
                result == Ok([]) &&
                tables == old(tables)[table := Changed(RowsIn(old(tables), table), assignments, conditions, params)]
              case Some(Delete(table, conditions)) =>
                result == Ok([]) &&
                tables == old(tables)[table := Remaining(RowsIn(old(tables), table), conditions, params)]
    {
      hide Parse, Matches;
      var statement := Parse(text);
      if statement.None? {
        return Err(CannotParse(text));
      }
      match statement.value
      case Insert(table, columns, values) =>
        if |columns| == |values| {
          var row := AssignAll([], Paired(columns, values), params);
          tables := tables[table := RowsIn(tables, table) + [row]];
        }
        result := Ok([]);
      case Select(table, conditions) =>
        var rows := RowsIn(tables, table);
        tables := tables[table := rows];
        var found := SelectRows(rows, conditions, params);
        result := Ok(found);
      case Update(table, assignments, conditions) =>
        var rows := UpdateRows(RowsIn(tables, table), assignments, conditions, params);
        tables := tables[table := rows];
        result := Ok([]);
      case Delete(table, conditions) =>
        var rows := DeleteRows(RowsIn(tables, table), conditions, params);
        tables := tables[table := rows];
        result := Ok([]);
    }
  }

  method AssignAll(row: Row, assignments: seq<Clause>, params: seq<Value>) returns (changed: Row)
    ensures changed == Assigned(row, assignments, params)
  {
    changed := row;
    for i := 0 to |assignments|
      invariant changed == Assigned(row, assignments[..i], params)
    {
      assert Front(assignments[..i + 1]) == assignments[..i] && Last(assignments[..i + 1]) == assignments[i];
      changed := Put(changed, assignments[i].column, ParamAt(params, assignments[i].number));
    }
    assert assignments[..|assignments|] == assignments;
  }

  method SelectRows(rows: seq<Row>, conditions: seq<Clause>, params: seq<Value>) returns (found: seq<Row>)
    ensures found == Selected(rows, conditions, params)
  {
    found := [];
    for i := 0 to |rows|
      invariant found == Selected(rows[..i], conditions, params)
    {
      assert Front(rows[..i + 1]) == rows[..i] && Last(rows[..i + 1]) == rows[i];
      if Matches(rows[i], conditions, params) {
        found := found + [rows[i]];
      }
    }
    assert rows[..|rows|] == rows;
  }

  method UpdateRows(rows: seq<Row>, assignments: seq<Clause>, conditions: seq<Clause>, params: seq<Value>) returns (after: seq<Row>)
    ensures after == Changed(rows, assignments, conditions, params)
  {
    after := rows;
    for i := 0 to |rows|
      invariant |after| == |rows| && after[i..] == rows[i..]
      invariant after[..i] == Changed(rows, assignments, conditions, params)[..i]
    {
      assert after[i] == after[i..][0] == rows[i];
      if Matches(rows[i], conditions, params) {
        var row := AssignAll(rows[i], assignments, params);
        after := after[i := row];
      }
    }
  }

  lemma RemainingFrom(rows: seq<Row>, i: nat, conditions: seq<Clause>, params: seq<Value>)
    requires i <= |rows|
    ensures if i == |rows| then Remaining(rows[i..], conditions, params) == []
            else
              Remaining(rows[i..], conditions, params) ==
              (if Matches(rows[i], conditions, params) then [] else [rows[i]]) + Remaining(rows[i + 1..], conditions, params)
  {
    hide Matches;
    if i < |rows| {
      assert rows[i..] == [rows[i]] + rows[i + 1..];
      RemainingConcat([rows[i]], rows[i + 1..], conditions, params);
      assert Front([rows[i]]) == [] && Remaining([], conditions, params) == [];
    }
  }

  /** From the last row to the first, so that removing one moves none that is still to come. */
  method DeleteRows(rows: seq<Row>, conditions: seq<Clause>, params: seq<Value>) returns (after: seq<Row>)
    ensures after == Remaining(rows, conditions, params)
  {
    hide Remaining, Matches;
    after := rows;
    var i := |rows|;
    RemainingFrom(rows, i, conditions, params);
    while i > 0
      invariant 0 <= i <= |rows|
      invariant after == rows[..i] + Remaining(rows[i..], conditions, params)
    {
      i := i - 1;
      RemainingFrom(rows, i, conditions, params);
      assert after == rows[..i] + ([rows[i]] + Remaining(rows[i + 1..], conditions, params));
      if Matches(after[i], conditions, params) {
        after := after[..i] + after[i + 1..];
      }
    }
    assert rows[0..] == rows;
  }
}
