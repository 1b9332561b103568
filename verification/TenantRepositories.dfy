/** The tenant repository itself, and why its statements act on the map as meant. */
module TenantRepositories {
  import opened ColumnNames
  import opened Common
  import opened InMemorySql
  import opened Records
  import opened Repositories
  import opened SqlRoundTrip
  import opened SqlText

  // ------------------------------------------------------ records, as stored

  function RecordsWith(rs: seq<Record>, key: Key): seq<Record> {
    if rs == [] then [] else RecordsWith(Front(rs), key) + if KeyOf(Last(rs)) == key then [Last(rs)] else []
  }

  function WithoutKey(rs: seq<Record>, key: Key): seq<Record> {
    if rs == [] then [] else WithoutKey(Front(rs), key) + if KeyOf(Last(rs)) == key then [] else [Last(rs)]
  }

  function WithKeyUpdated(rs: seq<Record>, key: Key, others: Record): seq<Record> {
    if rs == [] then []
    else WithKeyUpdated(Front(rs), key, others) + [if KeyOf(Last(rs)) == key then PutAll(Last(rs), others) else Last(rs)]
  }

  lemma StoredAllAppend(types: Types, rs: seq<Record>, r: Record)
    ensures StoredAll(types, rs + [r]) == StoredAll(types, rs) + [Stored(types, r)]
    ensures StoredAll(types, rs + []) == StoredAll(types, rs)
  {
    assert rs + [] == rs;
  }

  lemma {:induction false} SelectedStored(types: Types, rs: seq<Record>, key: Key)
    requires PlainKeys(types) && AllWellFormed(types, rs)
    ensures Selected(StoredAll(types, rs), ByKey(1), [key.0, key.1]) == StoredAll(types, RecordsWith(rs, key))
    ensures forall i :: 0 <= i < |RecordsWith(rs, key)| ==> WellFormed(types, RecordsWith(rs, key)[i])
    decreases |rs|
  {
    hide Stored, WellFormed, Matches, KeyOf;
    if rs != [] {
      var f, x := Front(rs), Last(rs);
      assert rs == f + [x] && WellFormed(types, rs[|f|]);
      SelectedStored(types, f, key);
      MatchesKey(types, x, 1, [key.0, key.1], key);
      StoredAllAppend(types, f, x);
      StoredAllAppend(types, RecordsWith(f, key), x);
      assert Front(StoredAll(types, rs)) == StoredAll(types, f);
    }
  }

  lemma {:induction false} RemainingStored(types: Types, rs: seq<Record>, key: Key)
    requires PlainKeys(types) && AllWellFormed(types, rs)
    ensures Remaining(StoredAll(types, rs), ByKey(1), [key.0, key.1]) == StoredAll(types, WithoutKey(rs, key))
    ensures AllWellFormed(types, WithoutKey(rs, key))
    decreases |rs|
  {
    hide Stored, WellFormed, Matches, KeyOf;
    if rs != [] {
      var f, x := Front(rs), Last(rs);
      assert rs == f + [x] && WellFormed(types, rs[|f|]);
      RemainingStored(types, f, key);
      MatchesKey(types, x, 1, [key.0, key.1], key);
      StoredAllAppend(types, f, x);
      StoredAllAppend(types, WithoutKey(f, key), x);
      assert Front(StoredAll(types, rs)) == StoredAll(types, f);
    }
  }

  /** What an update makes of one row: the row of the updated record. */
  lemma ChangedRow(types: Types, r: Record, key: Key, others: Record, params: seq<Value>)
    requires PlainKeys(types) && WellFormed(types, r) && GoodFields(others)
    requires params == ValuesOf(Stored(types, others)) + [key.0, key.1] && |Stored(types, others)| == |others|
    ensures (if Matches(Stored(types, r), ByKey(|others| + 1), params)
             then Assigned(Stored(types, r), Clauses(NamesOf(Stored(types, others)), 1), params)
             else Stored(types, r)) ==
            Stored(types, if KeyOf(r) == key then PutAll(r, others) else r)
  {
    hide Stored, Matches, KeyOf, PutAll, GoodFields;
    MatchesKey(types, r, |others| + 1, params, key);
    AssigningPuts(Stored(types, r), Stored(types, others), params);
    assert GoodFields(r);
    StoredPutAll(types, r, others);
  }

  lemma {:induction false} ChangedStored(types: Types, rs: seq<Record>, key: Key, others: Record, params: seq<Value>)
    requires PlainKeys(types) && AllWellFormed(types, rs) && GoodFields(others)
    requires params == ValuesOf(Stored(types, others)) + [key.0, key.1] && |Stored(types, others)| == |others|
    ensures Changed(StoredAll(types, rs), Clauses(NamesOf(Stored(types, others)), 1), ByKey(|others| + 1), params) ==
            StoredAll(types, WithKeyUpdated(rs, key, others))
    decreases |rs|
  {
    hide Stored, Matches, KeyOf, PutAll, GoodFields, WellFormed, ByKey, Clauses;
    if rs != [] {
      var f, x := Front(rs), Last(rs);
      assert rs == f + [x] && WellFormed(types, rs[|f|]);
      ChangedStored(types, f, key, others, params);
      ChangedRow(types, x, key, others, params);
      StoredAllAppend(types, f, x);
      StoredAllAppend(types, WithKeyUpdated(f, key, others), if KeyOf(x) == key then PutAll(x, others) else x);
    }
  }

  // --------------------------------------------------------- records, as a map

  lemma ContentsAppend(rs: seq<Record>, r: Record)
    ensures Contents(rs + [r]) == Contents(rs)[KeyOf(r) := MapOf(r)]
    ensures DistinctKeys(rs + [r]) <==> DistinctKeys(rs) && KeyOf(r) !in Contents(rs)
    ensures Contents([]) == map[] && DistinctKeys([])
  {
    assert Front(rs + [r]) == rs && Last(rs + [r]) == r;
  }

  /** At most one record has a key: the one the map gives. */
  lemma {:induction false} ContentsWith(rs: seq<Record>, key: Key)
    requires DistinctKeys(rs)
    ensures key !in Contents(rs) ==> RecordsWith(rs, key) == []
    ensures key in Contents(rs) ==>
              |RecordsWith(rs, key)| == 1 && KeyOf(RecordsWith(rs, key)[0]) == key &&
              MapOf(RecordsWith(rs, key)[0]) == Contents(rs)[key]
    decreases |rs|
  {
    hide KeyOf, MapOf;
    if rs != [] {
      ContentsWith(Front(rs), key);
    }
  }

  lemma {:induction false} ContentsWithout(rs: seq<Record>, key: Key)
    requires DistinctKeys(rs)
    ensures Contents(WithoutKey(rs, key)) == Contents(rs) - {key} && DistinctKeys(WithoutKey(rs, key))
    decreases |rs|
  {
    hide KeyOf, MapOf, Contents, DistinctKeys;
    if rs == [] {
      ContentsAppend([], []);
    } else {
      var f, x := Front(rs), Last(rs);
      assert rs == f + [x];
      ContentsAppend(f, x);
      ContentsWithout(f, key);
      ContentsAppend(WithoutKey(f, key), x);
      assert WithoutKey(f, key) + [] == WithoutKey(f, key);
    }
  }

  /** The fields of an update keep the key, and keep the record well-formed. */
  lemma UpdatedRecord(types: Types, r: Record, others: Record)
    requires WellFormed(types, r) && GoodFields(others) && Typed(types, others)
    requires "id" !in MapOf(others) && "organizationId" !in MapOf(others)
    ensures WellFormed(types, PutAll(r, others)) && KeyOf(PutAll(r, others)) == KeyOf(r)
    ensures MapOf(PutAll(r, others)) == MapOf(r) + MapOf(others)
  {
    hide GoodField, Fits, ToColumnName, Has, Get, MapOf, DistinctNames;
    var after := PutAll(r, others);
    PutAllMaps(r, others);
    PutAllKeepsGood(types, r, others);
    HasAndGet(after, "id");
    HasAndGet(after, "organizationId");
    HasAndGet(r, "id");
    HasAndGet(r, "organizationId");
  }

  lemma {:induction false} PutKeepsGood(types: Types, r: Record, e: Entry)
    requires GoodFields(r) && Typed(types, r) && GoodField(e.name) && Fits(types(ToColumnName(e.name)), e.value)
    ensures GoodFields(Put(r, e.name, e.value)) && Typed(types, Put(r, e.name, e.value))
    decreases |r|
  {
    hide GoodField, Fits, ToColumnName;
    if r != [] {
      FrontIsGood(types, r);
      PutKeepsGood(types, Front(r), e);
    }
  }

  lemma {:induction false} PutAllKeepsGood(types: Types, r: Record, others: Record)
    requires GoodFields(r) && Typed(types, r) && GoodFields(others) && Typed(types, others)
    ensures GoodFields(PutAll(r, others)) && Typed(types, PutAll(r, others))
    decreases |others|
  {
    hide GoodField, Fits, ToColumnName, Put;
    if others != [] {
      FrontIsGood(types, others);
      PutAllKeepsGood(types, r, Front(others));
      PutKeepsGood(types, PutAll(r, Front(others)), Last(others));
    }
  }

  lemma {:induction false} ContentsUpdated(types: Types, rs: seq<Record>, key: Key, others: Record)
    requires DistinctKeys(rs) && AllWellFormed(types, rs) && GoodFields(others) && Typed(types, others)
    requires "id" !in MapOf(others) && "organizationId" !in MapOf(others)
    ensures var after := WithKeyUpdated(rs, key, others);
            && DistinctKeys(after) && AllWellFormed(types, after)
            && Contents(after) == if key in Contents(rs) then Contents(rs)[key := Contents(rs)[key] + MapOf(others)] else Contents(rs)
    decreases |rs|
  {
    hide KeyOf, MapOf, Contents, DistinctKeys, WellFormed, GoodFields, Typed, PutAll;
    if rs == [] {
      ContentsAppend([], []);
    } else {
      var f, x := Front(rs), Last(rs);
      assert rs == f + [x] && WellFormed(types, rs[|f|]);
      ContentsAppend(f, x);
      ContentsUpdated(types, f, key, others);
      UpdatedRecord(types, x, others);
      ContentsAppend(WithKeyUpdated(f, key, others), if KeyOf(x) == key then PutAll(x, others) else x);
    }
  }

  /** Updating with a record of the same fields leaves exactly that record. */
  lemma SameFieldsReplaced(before: map<string, Value>, record: map<string, Value>)
    requires before.Keys == record.Keys
    requires forall name :: name in {"id", "organizationId"} && name in record ==> before[name] == record[name]
    ensures before + (record - {"id", "organizationId"}) == record
  {
    var others := record - {"id", "organizationId"};
    forall name | name in record
      ensures (before + others)[name] == record[name]
    {
      assert name in others <==> name !in {"id", "organizationId"};
    }
  }

  // ---------------------------------------------------------- the repository

  class TenantRepository {
    const client: InMemorySqlClient
    const table: string
    const toNumber: Conversion
    const types: Types
    /** The records whose rows the table holds. */
    ghost var records: seq<Record>

    constructor (client: InMemorySqlClient, table: string, toNumber: Conversion, types: Types)
      requires IsName(table) && PlainKeys(types) && table !in client.tables
      ensures Valid() && Contents(records) == map[]
      ensures this.client == client && this.table == table
    {
      this.client, this.table, this.toNumber, this.types := client, table, toNumber, types;
      records := [];
    }

    /** The table holds exactly the rows of the records. */
    ghost predicate Holds()
      reads this, client
    {
      && IsName(table) && PlainKeys(types) && AllWellFormed(types, records)
      && RowsIn(client.tables, table) == StoredAll(types, records)
    }

    /** No two of them share organization and id, so the table stands for a map. */
    ghost predicate Valid()
      reads this, client
    {
      Holds() && DistinctKeys(records)
    }

    /**
     * Add a record. The table goes on standing for a map, which gains exactly
     * that record, exactly when the key is new: the client itself would take
     * a second row with the key.
     */
    method Insert(record: Record) returns (result: Result<Record, SqlError>)
      requires Holds() && WellFormed(types, record)
      modifies this`records, client
      ensures Holds() && result == Ok(record) && records == old(records) + [record]
      ensures old(Valid()) ==> (Valid() <==> KeyOf(record) !in old(Contents(records)))
      ensures Contents(records) == old(Contents(records))[KeyOf(record) := MapOf(record)]
      ensures forall t :: t != table ==> RowsIn(client.tables, t) == old(RowsIn(client.tables, t))
    {
      hide Scan, Parse, InsertText, IsName, PlainKeys, WellFormed, Stored, DistinctKeys, Contents, GoodFields;
      var columns, values := ToColumnsAndValues(types, record);
      RowOfRecord(types, record);
      InsertReadBack(table, columns);
      assert Paired(columns, Numbers(1, |columns|)) == Clauses(columns, 1);
      var ran := client.Query(InsertText(table, columns), values);
      StoredAllAppend(types, records, record);
      ContentsAppend(records, record);
      records := records + [record];
      result := Ok(record);
    }

    /** The record with a key, if there is one. */
    method FindById(organizationId: string, id: string) returns (found: Option<Record>)
      requires Valid()
      modifies client
      ensures Valid()
      ensures var key := (Text(organizationId), Text(id));
              (found.Some? <==> key in Contents(records)) &&
              (found.Some? ==> MapOf(found.value) == Contents(records)[key])
      ensures forall t :: RowsIn(client.tables, t) == old(RowsIn(client.tables, t))
    {
      hide Scan, Parse, SelectText, IsName, PlainKeys, WellFormed, Stored, MapRow, GoodFields, Selected;
      ghost var key := (Text(organizationId), Text(id));
      KeyConditionsNamed(1);
      SelectReadBack(table, ByKey(1));
      var result := client.Query(SelectText(table, ByKey(1)), [Text(organizationId), Text(id)]);
      SelectedStored(types, records, key);
      ContentsWith(records, key);
      var rows := if result.Ok? then result.value else [];
      if rows == [] {
        return None;
      }
      ReadsBack(toNumber, types, RecordsWith(records, key)[0]);
      found := MapRow(toNumber, types, rows[0]);
    }

    /** Delete the record with a key; the map loses exactly that key. */
    method DeleteById(organizationId: string, id: string)
      requires Valid()
      modifies this`records, client
      ensures Valid()
      ensures Contents(records) == old(Contents(records)) - {(Text(organizationId), Text(id))}
      ensures forall t :: t != table ==> RowsIn(client.tables, t) == old(RowsIn(client.tables, t))
    {
      hide Scan, Parse, DeleteText, IsName, PlainKeys, WellFormed, Stored, DistinctKeys, Contents, Remaining;
      ghost var key := (Text(organizationId), Text(id));
      KeyConditionsNamed(1);
      DeleteReadBack(table, ByKey(1));
      var ran := client.Query(DeleteText(table, ByKey(1)), [Text(organizationId), Text(id)]);
      RemainingStored(types, records, key);
      ContentsWithout(records, key);
      records := WithoutKey(records, key);
    }

    /**
     * Write a record's other fields over the record with its key, if there is
     * one; a record that has no other field makes no statement and is refused.
     */
    method Update(record: Record) returns (result: Result<Record, SqlError>)
      requires Valid() && WellFormed(types, record)
      modifies this`records, client
      ensures Valid()
      ensures var others, key := MapOf(record) - {"id", "organizationId"}, KeyOf(record);
              && (result.Ok? <==> others != map[])
              && Contents(records) ==
                 if key in old(Contents(records)) then old(Contents(records))[key := old(Contents(records))[key] + others]
                 else old(Contents(records))
      ensures forall t :: t != table ==> RowsIn(client.tables, t) == old(RowsIn(client.tables, t))
    {
      hide Parse, UpdateText, IsName, PlainKeys, WellFormed, Stored, DistinctKeys, Contents, Changed, MapOf,
        Others, GoodFields, Typed, Get, ByKey, Clauses, NamesOf, ValuesOf, StoredAll, WithKeyUpdated, AllWellFormed, Named;
      var others := Others(record);
      var organizationId, id := Get(record, "organizationId"), Get(record, "id");
      ghost var key := KeyOf(record);
      UpdateFields(types, record);
      var columns, values := ToColumnsAndValues(types, others);
      UpdateStatement(types, table, others);
      ContentsUpdated(types, records, key, others);
      OneValueEach(Stored(types, others));
      ChangedStored(types, records, key, others, values + [organizationId, id]);
      var ran := client.Query(UpdateText(table, Clauses(columns, 1), ByKey(|values| + 1)), values + [organizationId, id]);
      if ran.Err? {
        AddNothing(Contents(records), key);
        return Err(ran.error);
      }
      records := WithKeyUpdated(records, key, others);
      result := Ok(record);
    }
  }

  lemma KeyConditionsNamed(from: nat)
    ensures Named(ByKey(from)) && ByKey(from) != []
  {
    hide IsName, ToColumnName, GoodField;
    KeyColumns();
    var conditions := ByKey(from);
    assert conditions[0].column == "organization_id" && conditions[1].column == "id";
  }

  /** An update's text is read back as that update, or is no statement when it assigns nothing. */
  lemma UpdateStatement(types: Types, table: string, others: Record)
    requires IsName(table) && |Stored(types, others)| == |others|
    requires Named(Clauses(NamesOf(Stored(types, others)), 1))
    ensures var assignments, conditions := Clauses(NamesOf(Stored(types, others)), 1), ByKey(|others| + 1);
            Parse(UpdateText(table, assignments, conditions)) ==
            if others == [] then None else Some(SqlText.Update(table, assignments, conditions))
  {
    hide Parse, UpdateText, IsName, Stored, ByKey;
    var assignments, conditions := Clauses(NamesOf(Stored(types, others)), 1), ByKey(|others| + 1);
    KeyConditionsNamed(|others| + 1);
    if others == [] {
      assert assignments == [];
      EmptyUpdateIsRefused(table, conditions);
    } else {
      UpdateReadBack(table, assignments, conditions);
    }
  }

  lemma AddNothing(contents: map<Key, map<string, Value>>, key: Key)
    ensures key in contents ==> contents[key := contents[key] + map[]] == contents
  {
    if key in contents {
      assert contents[key] + map[] == contents[key];
    }
  }

  lemma OneValueEach(e: Entries)
    ensures |ValuesOf(e)| == |e|
  {
  }

  lemma ReadsBack(toNumber: Conversion, types: Types, r: Record)
    requires WellFormed(types, r)
    ensures MapRow(toNumber, types, Stored(types, r)) == Some(r)
  {
    hide GoodFields, Typed;
    MapRowStored(toNumber, types, r);
  }

  /** Assigning a record's columns to an empty row makes its row. */
  lemma RowOfRecord(types: Types, r: Record)
    requires WellFormed(types, r)
    ensures var cells := Stored(types, r);
            && AllNames(NamesOf(cells)) && NamesOf(cells) != []
            && Assigned([], Clauses(NamesOf(cells), 1), ValuesOf(cells)) == cells
  {
    hide Has, GoodField, Fits, ToColumnName, Typed;
    var cells := Stored(types, r);
    StoredNames(types, r);
    AssigningPuts([], cells, ValuesOf(cells));
    StoredPutAll(types, [], r);
    PutAllInEmpty(r);
    assert Stored(types, []) == [];
  }

  /** The fields an update writes are proper, fit, and are none of the key. */
  lemma UpdateFields(types: Types, record: Record)
    requires WellFormed(types, record)
    ensures var others := Others(record);
            && GoodFields(others) && Typed(types, others)
            && MapOf(others) == MapOf(record) - {"id", "organizationId"}
            && "id" !in MapOf(others) && "organizationId" !in MapOf(others)
            && (others == [] <==> MapOf(others) == map[])
            && |Stored(types, others)| == |others|
            && Named(Clauses(NamesOf(Stored(types, others)), 1))
  {
    hide Stored, IsName, GoodField, Fits, ToColumnName, Others;
    OthersAreGood(types, record);
    OthersMap(record);
    var others := Others(record);
    StoredNames(types, others);
    if others != [] {
      assert Last(others).name in MapOf(others);
    }
  }
}
