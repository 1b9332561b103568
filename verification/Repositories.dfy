/**
 * The tenant-scoped repository: it writes SQL text, and through the in-memory
 * client behaves as a map from organization and id to a record.
 */
module Repositories {
  import opened ColumnNames
  import opened Common
  import opened InMemorySql
  import opened Records
  import opened SqlRoundTrip
  import opened SqlText

  type Record = Entries

  /** The organization and the id of a record. */
  type Key = (Value, Value)

  function KeyOf(r: Record): Key {
    (Get(r, "organizationId"), Get(r, "id"))
  }

  /** Ids and organization ids are stored as they are. */
  predicate PlainKeys(types: Types) {
    types("id") == OtherColumn && types("organization_id") == OtherColumn
  }

  /** A record as its type promises: proper fields, fitting values, an id and an organization. */
  ghost predicate WellFormed(types: Types, r: Record) {
    && GoodFields(r) && DistinctNames(r) && Typed(types, r)
    && Get(r, "id").Text? && Get(r, "organizationId").Text?
  }

  // ------------------------------------------------- the map a table stands for

  ghost function Contents(records: seq<Record>): map<Key, map<string, Value>> {
    if records == [] then map[] else Contents(Front(records))[KeyOf(Last(records)) := MapOf(Last(records))]
  }

  ghost predicate DistinctKeys(records: seq<Record>) {
    records == [] || (DistinctKeys(Front(records)) && KeyOf(Last(records)) !in Contents(Front(records)))
  }

  ghost predicate AllWellFormed(types: Types, records: seq<Record>) {
    forall i :: 0 <= i < |records| ==> WellFormed(types, records[i])
  }

  function StoredAll(types: Types, records: seq<Record>): seq<Row> {
    seq(|records|, i requires 0 <= i < |records| => Stored(types, records[i]))
  }

  // --------------------------------------------------- conditions and assignments

  /** `organization_id = $k AND id = $k+1`. */
  function ByKey(from: nat): seq<Clause> {
    [Clause("organization_id", from), Clause("id", from + 1)]
  }

  lemma KeyColumns()
    ensures ToColumnName("id") == "id" && ToColumnName("organizationId") == "organization_id"
    ensures GoodField("id") && GoodField("organizationId")
    ensures IsName("id") && IsName("organization_id")
  {
    hide ToColumnName, HasSnake;
    OrdinaryPrefix("id", "");
    OrdinaryPrefix("organization", "Id");
    assert "id" + "" == "id" && "organization" + "Id" == "organizationId" && "organization" + "_id" == "organization_id";
    ShortColumns();
  }

  lemma ShortColumns()
    ensures ToColumnName("") == "" && ToColumnName("Id") == "_id"
    ensures !HasSnake("") && !HasSnake("Id")
  {
    assert "Id"[1..] == "d" && "d"[1..] == "";
    assert ToLower('I') == 'i';
  }

  /** Lower-case letters stay as they are. */
  lemma {:induction false} OrdinaryPrefix(prefix: string, rest: string)
    requires forall i :: 0 <= i < |prefix| ==> 'a' <= prefix[i] <= 'z'
    ensures ToColumnName(prefix + rest) == prefix + ToColumnName(rest)
    ensures HasSnake(prefix + rest) <==> HasSnake(rest)
  {
    if prefix == "" {
      assert prefix + rest == rest;
    } else {
      OrdinaryPrefix(prefix[1..], rest);
      assert (prefix + rest)[1..] == prefix[1..] + rest;
    }
  }

  lemma MatchesBoth(row: Row, from: nat, params: seq<Value>, key: Key)
    requires from > 0 && from + 1 <= |params| && params[from - 1] == key.0 && params[from] == key.1
    ensures Matches(row, ByKey(from), params) <==> Get(row, "organization_id") == key.0 && Get(row, "id") == key.1
  {
    hide Get;
    var conditions := ByKey(from);
    assert conditions[0] == Clause("organization_id", from) && conditions[1] == Clause("id", from + 1);
  }

  lemma StoredKey(types: Types, r: Record)
    requires PlainKeys(types) && WellFormed(types, r)
    ensures Get(Stored(types, r), "organization_id") == KeyOf(r).0 && Get(Stored(types, r), "id") == KeyOf(r).1
  {
    hide Stored, Get, Has, DistinctNames, Typed, GoodFields, GoodField, ToColumnName, MapOf;
    KeyColumns();
    StoredHas(types, r, "id");
    StoredHas(types, r, "organizationId");
    HasAndGet(r, "id");
    HasAndGet(r, "organizationId");
  }

  /** The condition on a stored record is the question whether the key is its own. */
  lemma MatchesKey(types: Types, r: Record, from: nat, params: seq<Value>, key: Key)
    requires PlainKeys(types) && WellFormed(types, r)
    requires from > 0 && from + 1 <= |params| && params[from - 1] == key.0 && params[from] == key.1
    ensures Matches(Stored(types, r), ByKey(from), params) <==> KeyOf(r) == key
  {
    hide Stored, Get, Matches, WellFormed;
    MatchesBoth(Stored(types, r), from, params, key);
    StoredKey(types, r);
  }

  function NamesOf(e: Entries): seq<string> {
    seq(|e|, i requires 0 <= i < |e| => e[i].name)
  }

  function ValuesOf(e: Entries): seq<Value> {
    seq(|e|, i requires 0 <= i < |e| => e[i].value)
  }

  /** Assigning the numbered columns of some cells puts the cells, each with its own value. */
  lemma {:induction false} AssigningPuts(row: Row, cells: Entries, params: seq<Value>)
    requires ValuesOf(cells) <= params
    ensures Assigned(row, Clauses(NamesOf(cells), 1), params) == PutAll(row, cells)
    decreases |cells|
  {
    if cells != [] {
      var front, last := Front(cells), Last(cells);
      var clauses := Clauses(NamesOf(cells), 1);
      assert Front(clauses) == Clauses(NamesOf(front), 1);
      assert ValuesOf(front) <= params;
      AssigningPuts(row, front, params);
      assert Last(clauses) == Clause(last.name, |cells|);
      assert params[|cells| - 1] == ValuesOf(cells)[|cells| - 1] == last.value;
    }
  }

  /** `toColumnsAndValues`. */
  method ToColumnsAndValues(types: Types, record: Entries) returns (columns: seq<string>, values: seq<Value>)
    ensures columns == NamesOf(Stored(types, record))
    ensures values == ValuesOf(Stored(types, record))
  {
    columns, values := [], [];
    for i := 0 to |record|
      invariant columns == NamesOf(Stored(types, record[..i]))
      invariant values == ValuesOf(Stored(types, record[..i]))
    {
      assert record[..i + 1] == record[..i] + [record[i]];
      StoredAppend(types, record[..i], record[i]);
      var column := ToColumnName(record[i].name);
      columns := columns + [column];
      values := values + [SerializeValue(types(column), record[i].value)];
    }
    assert record[..|record|] == record;
  }

  lemma {:induction false} StoredNames(types: Types, r: Record)
    requires GoodFields(r)
    ensures |Stored(types, r)| == |r|
    ensures AllNames(NamesOf(Stored(types, r)))
    decreases |r|
  {
    hide IsName, ToColumnName, HasSnake, SerializeValue;
    if r != [] {
      StoredNames(types, Front(r));
      var front, cell := Stored(types, Front(r)), Cell(types, Last(r));
      assert GoodField(r[|r| - 1].name);
      ColumnIsName(Last(r).name);
      assert NamesOf(front + [cell]) == NamesOf(front) + [cell.name];
    }
  }

  predicate IsKeyField(name: string) {
    name == "id" || name == "organizationId"
  }

  lemma KeyFieldsAreKeyColumns(name: string)
    requires GoodField(name)
    ensures IsKeyField(name) <==> ToColumnName(name) == "id" || ToColumnName(name) == "organization_id"
  {
    KeyColumns();
    ColumnsDiffer(name, "id");
    ColumnsDiffer(name, "organizationId");
  }

  /** The fields an update writes: all but the key. */
  function Others(r: Record): Record {
    if r == [] then []
    else
      var column := ToColumnName(Last(r).name);
      Others(Front(r)) + if column != "id" && column != "organization_id" then [Last(r)] else []
  }

  lemma OthersAppend(f: Record, x: Entry)
    requires GoodField(x.name)
    ensures Others(f + [x]) == if IsKeyField(x.name) then Others(f) else Others(f) + [x]
  {
    hide ToColumnName, GoodField;
    assert Front(f + [x]) == f && Last(f + [x]) == x;
    KeyFieldsAreKeyColumns(x.name);
  }

  lemma FrontIsGood(types: Types, r: Record)
    requires r != [] && GoodFields(r) && Typed(types, r)
    ensures GoodFields(Front(r)) && Typed(types, Front(r))
    ensures GoodField(Last(r).name) && Fits(types(ToColumnName(Last(r).name)), Last(r).value)
  {
    hide GoodField, Fits, ToColumnName;
  }

  lemma {:induction false} OthersAreGood(types: Types, r: Record)
    requires GoodFields(r) && Typed(types, r)
    ensures GoodFields(Others(r)) && Typed(types, Others(r))
    decreases |r|
  {
    hide ToColumnName, GoodField, Fits;
    if r != [] {
      FrontIsGood(types, r);
      OthersAreGood(types, Front(r));
      OthersAppend(Front(r), Last(r));
      assert r == Front(r) + [Last(r)];
    }
  }

  lemma {:induction false} OthersMap(r: Record)
    requires GoodFields(r)
    ensures MapOf(Others(r)) == MapOf(r) - {"id", "organizationId"}
    decreases |r|
  {
    hide ToColumnName, GoodField, Others, MapOf;
    if r == [] {
      NoOthers();
    } else {
      var f, x := Front(r), Last(r);
      assert r == f + [x];
      assert GoodField(r[|f|].name);
      OthersMap(f);
      OthersAppend(f, x);
      MapOfAppend(f, x);
      MapOfAppend(Others(f), x);
    }
  }

  lemma NoOthers()
    ensures Others([]) == [] && MapOf([]) == map[]
  {
  }

  lemma MapOfAppend(f: Record, x: Entry)
    ensures MapOf(f + [x]) == MapOf(f)[x.name := x.value]
  {
    assert Front(f + [x]) == f && Last(f + [x]) == x;
  }
}
