/** Field names of records and column names of tables. */
module ColumnNames {

  predicate IsUpper(c: char) {
    'A' <= c <= 'Z'
  }

  predicate IsLowerOrDigit(c: char) {
    'a' <= c <= 'z' || '0' <= c <= '9'
  }

  function ToLower(c: char): char {
    if IsUpper(c) then (c as int - 'A' as int + 'a' as int) as char else c
  }

  function ToUpper(c: char): char {
    if 'a' <= c <= 'z' then (c as int - 'a' as int + 'A' as int) as char else c
  }

  /** `field.replace(/[A-Z]/g, ...)`: an upper-case letter becomes an underscore and its lower case. */
  function ToColumnName(field: string): string {
    if field == "" then ""
    else (if IsUpper(field[0]) then ['_', ToLower(field[0])] else [field[0]]) + ToColumnName(field[1..])
  }

  /** `column.replace(/_([a-z0-9])/g, ...)`: an underscore and a letter or digit become its upper case. */
  function ToFieldName(column: string): string {
    if column == "" then ""
    else if column[0] == '_' && |column| > 1 && IsLowerOrDigit(column[1]) then [ToUpper(column[1])] + ToFieldName(column[2..])
    else [column[0]] + ToFieldName(column[1..])
  }

  /** Somewhere an underscore stands right before a lower-case letter or a digit. */
  predicate HasSnake(field: string) {
    |field| > 1 && ((field[0] == '_' && IsLowerOrDigit(field[1])) || HasSnake(field[1..]))
  }

  lemma ColumnStart(field: string)
    requires field != ""
    ensures ToColumnName(field) != ""
    ensures ToColumnName(field)[0] == if IsUpper(field[0]) then '_' else field[0]
    ensures ToColumnName(field)[if IsUpper(field[0]) then 2 else 1..] == ToColumnName(field[1..])
  {
  }

  /** Reading a written name back never makes it longer. */
  lemma {:induction false} RoundTripShorter(field: string)
    ensures |ToFieldName(ToColumnName(field))| <= |field|
  {
    if field != "" {
      var column, rest := ToColumnName(field), ToColumnName(field[1..]);
      ColumnStart(field);
      RoundTripShorter(field[1..]);
      if IsUpper(field[0]) {
        assert column[1] == ToLower(field[0]) && column[2..] == rest;
      } else if field[0] == '_' && rest != "" && IsLowerOrDigit(rest[0]) {
        ColumnStart(field[1..]);
        RoundTripShorter(field[2..]);
        assert column[2..] == rest[1..] == ToColumnName(field[2..]);
        assert field[1..][1..] == field[2..];
      } else {
        assert column[1..] == rest;
      }
    }
  }

  /**
   * A field name survives being written as a column and read back exactly when
   * no underscore in it stands right before a lower-case letter or a digit.
   */
  lemma {:induction false} FieldRoundTrip(field: string)
    ensures ToFieldName(ToColumnName(field)) == field <==> !HasSnake(field)
  {
    if field != "" {
      var column, rest := ToColumnName(field), ToColumnName(field[1..]);
      ColumnStart(field);
      FieldRoundTrip(field[1..]);
      assert field == [field[0]] + field[1..];
      if IsUpper(field[0]) {
        assert column[1] == ToLower(field[0]) && column[2..] == rest;
        assert ToFieldName(column) == [field[0]] + ToFieldName(rest);
      } else if field[0] == '_' && |field| > 1 && IsLowerOrDigit(field[1]) {
        ColumnStart(field[1..]);
        assert column[1..] == rest && column[2..] == ToColumnName(field[2..]);
        assert field[1..][1..] == field[2..];
        RoundTripShorter(field[2..]);
        assert |ToFieldName(column)| < |field|;
      } else {
        assert column[1..] == rest;
        if |field| > 1 {
          ColumnStart(field[1..]);
        }
        assert ToFieldName(column) == [field[0]] + ToFieldName(rest);
      }
    }
  }

  /** Two different fields of a record never share a column. */
  lemma ColumnsDiffer(a: string, b: string)
    requires !HasSnake(a) && !HasSnake(b)
    ensures ToColumnName(a) == ToColumnName(b) <==> a == b
  {
    FieldRoundTrip(a);
    FieldRoundTrip(b);
  }
}
