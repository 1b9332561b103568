/**
 * Records and the rows that store them: field names become column names, and
 * values are written and read by the column's type.
 */
module Records {
  import opened ColumnNames
  import opened Common
  import Json
  import opened SqlText

  /** What an object or an array is: a structured JSON value. */
  type Compound = j: Json.Json | j.List? || j.Object? witness Json.List([])

  /** A value a record or a row can hold. A number is carried as its decimal text. */
  datatype Value =
    | Undefined
    | Null
    | Text(text: string)
    | Number(numeral: Json.Numeral)
    | Boolean(truth: bool)
    | Structure(json: Compound)

  datatype Entry = Entry(name: string, value: Value)

  /** The entries of an object in their order: a record by field, a row by column. */
  type Entries = seq<Entry>

  // ------------------------------------------------------------------ values

  datatype ColumnType = BooleanColumn | NumberColumn | JsonColumn | OtherColumn

  /** `Number(value)`, for values that are no numbers. */
  type Conversion = Value -> Json.Numeral

  function ToJson(v: Value): Json.Json {
    match v
    case Undefined => Json.Null
    case Null => Json.Null
    case Text(text) => Json.String(text)
    case Number(numeral) => Json.Number(numeral)
    case Boolean(truth) => Json.Bool(truth)
    case Structure(json) => json
  }

  function FromJson(j: Json.Json): Value {
    match j
    case Null => Null
    case Bool(truth) => Boolean(truth)
    case Number(numeral) => Number(numeral)
    case String(text) => Text(text)
    case List(_) => Structure(j)
    case Object(_) => Structure(j)
  }

  function SerializeValue(ty: ColumnType, v: Value): Value {
    if v.Null? || v.Undefined? then v
    else if ty.JsonColumn? && !v.Text? then Text(Json.Print(ToJson(v), false))
    else v
  }

  /** Reading a JSON column fails when its text is no JSON. */
  function CoerceValue(toNumber: Conversion, ty: ColumnType, v: Value): Option<Value> {
    if v.Null? || v.Undefined? then Some(v)
    else
      match ty
      case BooleanColumn => Some(if v.Boolean? then v else Boolean(v in {Text("t"), Text("true"), Text("1"), Number("1")}))
      case NumberColumn => Some(if v.Number? then v else Number(toNumber(v)))
      case OtherColumn => Some(v)
      case JsonColumn =>
        if !v.Text? then Some(v)
        else
          match Json.Parse(v.text)
          case None => None
          case Some(j) => Some(FromJson(j))
  }

  /** The values that survive being written to a column of a type. */
  predicate Fits(ty: ColumnType, v: Value) {
    v.Null? || v.Undefined? ||
    match ty
    case BooleanColumn => v.Boolean?
    case NumberColumn => v.Number?
    case JsonColumn => !v.Text?
    case OtherColumn => true
  }

  /** A written value reads back as itself exactly when it fits; a bare string in a JSON column never does. */
  lemma ValueRoundTrip(toNumber: Conversion, ty: ColumnType, v: Value)
    ensures CoerceValue(toNumber, ty, SerializeValue(ty, v)) == Some(v) <==> Fits(ty, v)
  {
    hide Json.Parse, Json.Print, Json.IsNumeral;
    if ty.JsonColumn? {
      Json.ParsePrint(ToJson(v), false);
      if v.Text? && Json.Parse(v.text) == Some(Json.String(v.text)) {
        Json.ParsedStringIsShorter(v.text, v.text);
      }
    }
  }

  /** What is no text goes into a JSON column as text, which reads as the value. */
  lemma JsonIsStoredAsText(v: Value)
    requires v.Number? || v.Boolean? || v.Structure?
    ensures SerializeValue(JsonColumn, v).Text?
    ensures Json.Parse(SerializeValue(JsonColumn, v).text).Some? && FromJson(Json.Parse(SerializeValue(JsonColumn, v).text).value) == v
  {
    hide Json.Parse, Json.Print, Json.IsNumeral;
    Json.ParsePrint(ToJson(v), false);
  }

  // ----------------------------------------------------------------- entries

  /** `object[name]`. */
  function Get(e: Entries, name: string): Value {
    if e == [] then Undefined
    else if Last(e).name == name then Last(e).value
    else Get(Front(e), name)
  }

  predicate Has(e: Entries, name: string) {
    e != [] && (Last(e).name == name || Has(Front(e), name))
  }

  /** `object[name] = value`: a known name keeps its place, a new one comes last. */
  function Put(e: Entries, name: string, value: Value): Entries {
    if e == [] then [Entry(name, value)]
    else if Last(e).name == name then Front(e) + [Entry(name, value)]
    else if Has(Front(e), name) then Put(Front(e), name, value) + [Last(e)]
    else e + [Entry(name, value)]
  }

  function PutAll(e: Entries, more: Entries): Entries {
    if more == [] then e else Put(PutAll(e, Front(more)), Last(more).name, Last(more).value)
  }

  predicate DistinctNames(e: Entries) {
    e == [] || (DistinctNames(Front(e)) && !Has(Front(e), Last(e).name))
  }

  /** The object as a map, which is how two records are compared. */
  function MapOf(e: Entries): map<string, Value> {
    if e == [] then map[] else MapOf(Front(e))[Last(e).name := Last(e).value]
  }

  lemma {:induction false} HasAndGet(e: Entries, name: string)
    ensures Has(e, name) <==> name in MapOf(e)
    ensures Get(e, name) == if name in MapOf(e) then MapOf(e)[name] else Undefined
  {
    if e != [] {
      HasAndGet(Front(e), name);
    }
  }

  /** What the functions of entries make of one more entry. */
  lemma OneMoreEntry(f: Entries, x: Entry, name: string, value: Value)
    ensures Has(f + [x], name) <==> x.name == name || Has(f, name)
    ensures Get(f + [x], name) == if x.name == name then x.value else Get(f, name)
    ensures DistinctNames(f + [x]) <==> DistinctNames(f) && !Has(f, x.name)
    ensures MapOf(f + [x]) == MapOf(f)[x.name := x.value]
    ensures Put(f + [x], name, value) ==
            if x.name == name then f + [Entry(name, value)]
            else if Has(f, name) then Put(f, name, value) + [x]
            else f + [x] + [Entry(name, value)]
  {
    assert Front(f + [x]) == f && Last(f + [x]) == x;
  }

  lemma NoEntries(name: string, value: Value)
    ensures !Has([], name) && Get([], name) == Undefined && DistinctNames([]) && MapOf([]) == map[]
    ensures Put([], name, value) == [Entry(name, value)]
  {
  }

  lemma {:induction false} PutMaps(e: Entries, name: string, value: Value)
    requires DistinctNames(e)
    ensures MapOf(Put(e, name, value)) == MapOf(e)[name := value]
    ensures DistinctNames(Put(e, name, value))
  {
    hide Has, Get, DistinctNames, MapOf, Put;
    var entry := Entry(name, value);
    NoEntries(name, value);
    if e == [] {
      OneMoreEntry([], entry, name, value);
      assert [] + [entry] == [entry];
    } else {
      var f, x := Front(e), Last(e);
      assert e == f + [x];
      OneMoreEntry(f, x, name, value);
      HasAndGet(f, x.name);
      HasAndGet(f, name);
      OneMoreEntry(f, entry, name, value);
      OneMoreEntry(e, entry, name, value);
      if x.name != name && Has(f, name) {
        PutMaps(f, name, value);
        OneMoreEntry(Put(f, name, value), x, name, value);
        HasAndGet(Put(f, name, value), x.name);
      }
    }
  }

  lemma {:induction false} PutAllMaps(e: Entries, more: Entries)
    requires DistinctNames(e)
    ensures MapOf(PutAll(e, more)) == MapOf(e) + MapOf(more) && DistinctNames(PutAll(e, more))
  {
    hide Has, Get, DistinctNames, Put;
    if more != [] {
      PutAllMaps(e, Front(more));
      PutMaps(PutAll(e, Front(more)), Last(more).name, Last(more).value);
    }
  }

  lemma {:induction false} PutAllInEmpty(more: Entries)
    requires DistinctNames(more)
    ensures PutAll([], more) == more
  {
    if more != [] {
      PutAllInEmpty(Front(more));
      assert more == Front(more) + [Last(more)];
    }
  }

  // ------------------------------------------------------ a record, as a row

  type Types = string -> ColumnType

  function Cell(types: Types, e: Entry): Entry {
    var column := ToColumnName(e.name);
    Entry(column, SerializeValue(types(column), e.value))
  }

  /** The row a record is stored as. */
  function Stored(types: Types, r: Entries): Entries {
    if r == [] then [] else Stored(types, Front(r)) + [Cell(types, Last(r))]
  }

  /** A field name of letters, digits and underscores that survives as a column. */
  predicate GoodField(name: string) {
    IsWord(name) && !HasSnake(name)
  }

  predicate GoodFields(r: Entries) {
    forall i :: 0 <= i < |r| ==> GoodField(r[i].name)
  }

  /** Every value fits its column. */
  predicate Typed(types: Types, r: Entries) {
    forall i :: 0 <= i < |r| ==> Fits(types(ToColumnName(r[i].name)), r[i].value)
  }

  lemma {:induction false} ColumnIsName(field: string)
    requires IsWord(field)
    ensures IsName(ToColumnName(field))
  {
    ColumnStart(field);
    if |field| > 1 {
      ColumnIsName(field[1..]);
    } else {
      assert ToColumnName(field[1..]) == "";
    }
  }

  lemma {:induction false} StoredHas(types: Types, r: Entries, field: string)
    requires GoodFields(r) && GoodField(field)
    ensures |Stored(types, r)| == |r|
    ensures Has(Stored(types, r), ToColumnName(field)) <==> Has(r, field)
    ensures Get(Stored(types, r), ToColumnName(field)) ==
            if Has(r, field) then SerializeValue(types(ToColumnName(field)), Get(r, field)) else Undefined
  {
    if r != [] {
      StoredHas(types, Front(r), field);
      ColumnsDiffer(Last(r).name, field);
      assert Front(Stored(types, r)) == Stored(types, Front(r));
    }
  }

  lemma StoredAppend(types: Types, r: Entries, e: Entry)
    ensures Stored(types, r + [e]) == Stored(types, r) + [Cell(types, e)]
    ensures Stored(types, []) == []
  {
    assert Front(r + [e]) == r;
  }

  lemma GoodFront(r: Entries)
    requires r != [] && GoodFields(r)
    ensures GoodFields(Front(r)) && GoodField(Last(r).name)
  {
    hide GoodField;
  }

  lemma {:induction false} PutIsGood(r: Entries, e: Entry)
    requires GoodFields(r) && GoodField(e.name)
    ensures GoodFields(Put(r, e.name, e.value))
    decreases |r|
  {
    hide GoodField;
    if r != [] {
      GoodFront(r);
      PutIsGood(Front(r), e);
    }
  }

  /** Setting a field of the record and setting its column in the row come to the same. */
  lemma {:induction false} StoredPut(types: Types, r: Entries, e: Entry)
    requires GoodFields(r) && GoodField(e.name)
    ensures Put(Stored(types, r), Cell(types, e).name, Cell(types, e).value) ==
            Stored(types, Put(r, e.name, e.value))
    decreases |r|
  {
    hide Has, Get, Put, Stored, SerializeValue, GoodField, GoodFields, ToColumnName, Json.IsNumeral;
    var cell := Cell(types, e);
    NoEntries(e.name, e.value);
    NoEntries(cell.name, cell.value);
    StoredAppend(types, [], e);
    assert [] + [e] == [e] && [] + [cell] == [cell];
    if r != [] {
      var f, x := Front(r), Last(r);
      assert r == f + [x];
      GoodFront(r);
      StoredAppend(types, f, x);
      StoredAppend(types, f, e);
      StoredAppend(types, r, e);
      OneMoreEntry(f, x, e.name, e.value);
      OneMoreEntry(Stored(types, f), Cell(types, x), cell.name, cell.value);
      GoodNamesDiffer(x.name, e.name);
      StoredHas(types, f, e.name);
      if x.name != e.name && Has(f, e.name) {
        StoredPut(types, f, e);
        StoredAppend(types, Put(f, e.name, e.value), x);
      }
    }
  }

  lemma GoodNamesDiffer(a: string, b: string)
    requires GoodField(a) && GoodField(b)
    ensures ToColumnName(a) == ToColumnName(b) <==> a == b
  {
    ColumnsDiffer(a, b);
  }

  lemma {:induction false} StoredPutAll(types: Types, r: Entries, more: Entries)
    requires GoodFields(r) && GoodFields(more)
    ensures PutAll(Stored(types, r), Stored(types, more)) == Stored(types, PutAll(r, more))
    ensures GoodFields(PutAll(r, more))
  {
    hide Put, SerializeValue, GoodField, ToColumnName;
    if more != [] {
      StoredPutAll(types, r, Front(more));
      StoredPut(types, PutAll(r, Front(more)), Last(more));
      PutIsGood(PutAll(r, Front(more)), Last(more));
      assert Front(Stored(types, more)) == Stored(types, Front(more));
    }
  }

  // ------------------------------------------------------ a row, as a record

  /** `mapRow`: each column's field, its value read by the column's type. */
  function MapRow(toNumber: Conversion, types: Types, row: Entries): Option<Entries> {
    if row == [] then Some([])
    else
      match MapRow(toNumber, types, Front(row))
      case None => None
      case Some(before) =>
        match CoerceValue(toNumber, types(Last(row).name), Last(row).value)
        case None => None
        case Some(value) => Some(Put(before, ToFieldName(Last(row).name), value))
  }

  lemma MapRowAppend(toNumber: Conversion, types: Types, before: Entries, cell: Entry)
    ensures MapRow(toNumber, types, before + [cell]) ==
            if MapRow(toNumber, types, before).None? || CoerceValue(toNumber, types(cell.name), cell.value).None? then None
            else Some(Put(MapRow(toNumber, types, before).value, ToFieldName(cell.name), CoerceValue(toNumber, types(cell.name), cell.value).value))
    ensures MapRow(toNumber, types, []) == Some([])
  {
    assert Front(before + [cell]) == before;
  }

  /** A stored record is read back as itself, field by field and in order. */
  lemma {:induction false} MapRowStored(toNumber: Conversion, types: Types, r: Entries)
    requires GoodFields(r) && DistinctNames(r) && Typed(types, r)
    ensures MapRow(toNumber, types, Stored(types, r)) == Some(r)
    decreases |r|
  {
    hide MapRow, Stored, CoerceValue, SerializeValue, ToFieldName, ToColumnName, Fits;
    if r == [] {
      StoredAppend(types, [], Entry("", Null));
      MapRowAppend(toNumber, types, [], Entry("", Null));
    } else {
      var f, e := Front(r), Last(r);
      assert r == f + [e];
      assert GoodFields(f) && Typed(types, f);
      assert GoodField(r[|f|].name) && Fits(types(ToColumnName(r[|f|].name)), r[|f|].value);
      MapRowStored(toNumber, types, f);
      StoredAppend(types, f, e);
      MapRowAppend(toNumber, types, Stored(types, f), Cell(types, e));
      FieldRoundTrip(e.name);
      ValueRoundTrip(toNumber, types(ToColumnName(e.name)), e.value);
      PutNew(f, e);
    }
  }

  lemma PutNew(f: Entries, e: Entry)
    requires !Has(f, e.name)
    ensures Put(f, e.name, e.value) == f + [e]
  {
  }
}
