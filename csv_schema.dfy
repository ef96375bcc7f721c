/**
 * The schema layer of the shared CSV parser (src/shared/utils/csvParser.js):
 * type coercion (`transformValue`), header and row validation, building a
 * row object and the `parse` loop that ties them together.
 */
module CsvSchema {
  import opened Wrappers
  import opened CsvLines
  import JsText
  import SeqFacts

  // ---------------------------------------------------------------------
  // Values, schemas and errors
  // ---------------------------------------------------------------------

  /** A cell after coercion. JavaScript has one number type, modelled as `real`. */
  datatype Value = Str(s: string) | Num(n: real) | Bool(b: bool) | Null | Date(time: int)

  /** The column's `type` tag; `OtherType` is any other tag, or none. */
  datatype ColumnType = StringType | NumberType | IntegerType | FloatType | BooleanType | DateType | OtherType

  /** One column descriptor; an absent property is `None`. */
  datatype ColumnSchema = ColumnSchema(
    kind: ColumnType,
    required: bool,
    nullable: bool,
    defaultValue: Option<Value>,
    name: Option<string>,
    min: Option<real>,
    max: Option<real>,
    minLength: Option<int>,
    maxLength: Option<int>,
    pattern: Option<string>,
    allowed: Option<seq<string>>)

  datatype Column = Column(key: string, spec: ColumnSchema)

  /** A schema object; `columns` lists the keys of `schema.columns` in order. */
  datatype Schema = Schema(columns: Option<seq<Column>>)

  /** A row object: header name to value. */
  type Row = map<string, Value>

  /**
   * The library calls the parser relies on and whose behaviour is not part of
   * this model: `Number(s)` and `parseFloat(s)` (None for NaN),
   * `new Date(s).getTime()` (None for an invalid date) and
   * `new RegExp(p).test(s)` (None when the pattern does not compile).
   */
  datatype Runtime = Runtime(
    number: string -> Option<real>,
    parseFloat: string -> Option<real>,
    date: string -> Option<int>,
    regexTest: (string, string) -> Option<bool>)

  /** The errors `parse` and its helpers throw, one constructor per message. */
  datatype ParseError =
    | InvalidText
    | MissingHeaders(missing: seq<string>)
    | RequiredFieldMissing(columnName: string)
    | InvalidNumber(text: string)
    | InvalidInteger(text: string)
    | InvalidFloat(text: string)
    | InvalidDate(text: string)
    | RowInvalid(column: string, line: nat, violation: Violation)
    | OnLine(lineNumber: nat, cause: ParseError)

  /** Why `validateRow` rejected a column of a row. */
  datatype Violation =
    | RequiredEmpty
    | BelowMinimum
    | AboveMaximum
    | TooShort
    | TooLong
    | BadPattern
    | PatternMismatch
    | NotAllowed

  // ---------------------------------------------------------------------
  // The predefined schemas
  // ---------------------------------------------------------------------

  /** A column of the given type, required, with no other constraint. */
  function RequiredColumn(key: string, kind: ColumnType): Column {
    Column(key, ColumnSchema(kind, true, false, None, None, None, None, None, None, None, None))
  }

  const MlbPlayer: Schema := Schema(Some([
    var c := RequiredColumn("Player", StringType); c.(spec := c.spec.(minLength := Some(1))),
    var c := RequiredColumn("League", StringType); c.(spec := c.spec.(allowed := Some(["AL", "NL"]))),
    var c := RequiredColumn("Team", StringType); c.(spec := c.spec.(minLength := Some(2))),
    var c := RequiredColumn("Age", IntegerType); c.(spec := c.spec.(min := Some(18.0), max := Some(50.0))),
    var c := RequiredColumn("Runs", IntegerType); c.(spec := c.spec.(min := Some(0.0))),
    var c := RequiredColumn("SB", IntegerType); c.(spec := c.spec.(min := Some(0.0))),
    var c := RequiredColumn("HR", IntegerType); c.(spec := c.spec.(min := Some(0.0))),
    var c := RequiredColumn("OPS", FloatType); c.(spec := c.spec.(min := Some(0.0), max := Some(2.0)))
  ]))

  const NflPlayer: Schema := Schema(Some([
    var c := RequiredColumn("Player", StringType); c.(spec := c.spec.(minLength := Some(1))),
    var c := RequiredColumn("Age", IntegerType); c.(spec := c.spec.(min := Some(18.0), max := Some(50.0))),
    var c := RequiredColumn("Conference", StringType); c.(spec := c.spec.(allowed := Some(["AFC", "NFC"]))),
    var c := RequiredColumn("Team", StringType); c.(spec := c.spec.(minLength := Some(2))),
    RequiredColumn("Position", StringType),
    var c := RequiredColumn("Rec Yds", IntegerType); c.(spec := c.spec.(min := Some(0.0))),
    var c := RequiredColumn("Rush Yds", IntegerType); c.(spec := c.spec.(min := Some(0.0))),
    var c := RequiredColumn("TDs", IntegerType); c.(spec := c.spec.(min := Some(0.0)))
  ]))

  const NbaPlayer: Schema := Schema(Some([
    var c := RequiredColumn("Player", StringType); c.(spec := c.spec.(minLength := Some(1))),
    var c := RequiredColumn("Conference", StringType); c.(spec := c.spec.(allowed := Some(["Eastern", "Western"]))),
    var c := RequiredColumn("Team", StringType); c.(spec := c.spec.(minLength := Some(2))),
    RequiredColumn("Position", StringType),
    var c := RequiredColumn("Age", IntegerType); c.(spec := c.spec.(min := Some(18.0), max := Some(50.0))),
    var c := RequiredColumn("PTS", FloatType); c.(spec := c.spec.(min := Some(0.0))),
    var c := RequiredColumn("REB", FloatType); c.(spec := c.spec.(min := Some(0.0))),
    var c := RequiredColumn("AST", FloatType); c.(spec := c.spec.(min := Some(0.0)))
  ]))

  // ---------------------------------------------------------------------
  // parseInt(value, 10)
  // ---------------------------------------------------------------------

  predicate IsDigit(c: char) {
    '0' <= c <= '9'
  }

  predicate AllDigits(s: string) {
    forall i :: 0 <= i < |s| ==> IsDigit(s[i])
  }

  /** The length of the run of decimal digits that starts `s`. */
  function DigitRun(s: string): (n: nat)
    ensures n <= |s|
    ensures n < |s| ==> !IsDigit(s[n])
  {
    if s != [] && IsDigit(s[0]) then 1 + DigitRun(s[1..]) else 0
  }

  /** Everything in the digit run is a digit. */
  lemma {:induction false} DigitRunAllDigits(s: string)
    ensures AllDigits(s[..DigitRun(s)])
    decreases |s|
  {
    if s != [] && IsDigit(s[0]) {
      DigitRunAllDigits(s[1..]);
      var n := DigitRun(s);
      forall i | 0 <= i < n
        ensures IsDigit(s[..n][i])
      {
        if i > 0 {
          assert s[..n][i] == s[1..][..n - 1][i - 1];
        }
      }
    }
  }

  /** The number a string of decimal digits denotes. */
  function DigitsValue(d: string): nat
    requires AllDigits(d)
  {
    if d == [] then 0
    else
      var last := d[|d| - 1];
      assert IsDigit(last);
      DigitsValue(d[..|d| - 1]) * 10 + ((last as int) - ('0' as int))
  }

  /**
   * `parseInt(value, 10)`: skip leading whitespace, read an optional sign,
   * then the longest run of decimal digits; no digit at all is NaN (`None`).
   */
  function ParseInt(value: string): (r: Option<int>)
    ensures var t := TrimStart(value);
      var body := if t != [] && (t[0] == '-' || t[0] == '+') then t[1..] else t;
      r.Some? <==> body != [] && IsDigit(body[0])
    ensures r.Some? && r.value < 0 ==> TrimStart(value)[0] == '-'
  {
    ParseSigned(TrimStart(value))
  }

  /** `parseInt` after the leading whitespace: an optional sign, then digits. */
  function ParseSigned(s: string): Option<int> {
    var signed := s != [] && (s[0] == '-' || s[0] == '+');
    var body := if signed then s[1..] else s;
    var n := DigitRun(body);
    if n == 0 then None
    else
      DigitRunAllDigits(body);
      var magnitude: int := DigitsValue(body[..n]);
      if signed && s[0] == '-' then Some(-magnitude) else Some(magnitude)
  }

  /** The decimal digits of `n`. */
  function NatDigits(n: nat): (d: string)
    ensures |d| >= 1 && AllDigits(d)
  {
    if n < 10 then [('0' as int + n) as char]
    else NatDigits(n / 10) + [('0' as int + n % 10) as char]
  }

  /** The decimal form of `n`, with a minus sign when negative. */
  function IntToString(n: int): string {
    if n < 0 then "-" + NatDigits(-n) else NatDigits(n)
  }

  lemma {:induction false} NatDigitsValue(n: nat)
    ensures DigitsValue(NatDigits(n)) == n
  {
    if n >= 10 {
      NatDigitsValue(n / 10);
      var d := NatDigits(n);
      assert d[..|d| - 1] == NatDigits(n / 10);
    }
  }

  lemma {:induction false} DigitRunStops(d: string, suffix: string)
    requires AllDigits(d)
    requires suffix == [] || !IsDigit(suffix[0])
    ensures DigitRun(d + suffix) == |d|
    decreases |d|
  {
    if d == [] {
      SeqFacts.AppendEmpty(suffix);
    } else {
      DigitRunStops(d[1..], suffix);
      SeqFacts.TailOfAppend(d, suffix);
    }
  }

  lemma {:induction false} TrimStartBlankPrefix(ws: string, s: string)
    requires IsBlank(ws)
    requires s != [] && !IsSpace(s[0])
    ensures TrimStart(ws + s) == s
    decreases |ws|
  {
    if ws == [] {
      SeqFacts.AppendEmpty(s);
    } else {
      TrimStartBlankPrefix(ws[1..], s);
      SeqFacts.TailOfAppend(ws, s);
    }
  }

  /**
   * `parseInt` reads the leading integer: any whitespace, then the decimal
   * form of `n`, then anything that does not start with a digit, gives `n`.
   */
  lemma ParseLeadingInteger(ws: string, n: int, suffix: string)
    requires IsBlank(ws)
    requires suffix == [] || !IsDigit(suffix[0])
    ensures ParseInt(ws + IntToString(n) + suffix) == Some(n)
  {
    var s := IntToString(n) + suffix;
    IntToStringStart(n);
    TrimStartBlankPrefix(ws, s);
    SeqFacts.AppendAssoc(ws, IntToString(n), suffix);
    ParseSignedInteger(n, suffix);
  }

  lemma IntToStringStart(n: int)
    ensures IntToString(n) != [] && !IsSpace(IntToString(n)[0])
  {
    var m: nat := if n < 0 then -n else n;
    assert IsDigit(NatDigits(m)[0]);
  }

  lemma ParseUnsignedDigits(digits: string, suffix: string)
    requires AllDigits(digits)
    requires suffix == [] || !IsDigit(suffix[0])
    ensures DigitRun(digits + suffix) == |digits|
    ensures (digits + suffix)[..|digits|] == digits
  {
    DigitRunStops(digits, suffix);
  }

  lemma ParseSignedInteger(n: int, suffix: string)
    requires suffix == [] || !IsDigit(suffix[0])
    ensures ParseSigned(IntToString(n) + suffix) == Some(n)
  {
    var m: nat := if n < 0 then -n else n;
    var digits := NatDigits(m);
    NatDigitsValue(m);
    if n < 0 {
      assert IntToString(n) == "-" + digits;
      ParseNegativeDigits(digits, suffix);
    } else {
      assert IntToString(n) == digits;
      ParsePlainDigits(digits, suffix);
    }
  }

  lemma ParsePlainDigits(digits: string, suffix: string)
    requires digits != [] && AllDigits(digits)
    requires suffix == [] || !IsDigit(suffix[0])
    ensures ParseSigned(digits + suffix) == Some(DigitsValue(digits))
  {
    ParseUnsignedDigits(digits, suffix);
    assert (digits + suffix)[0] == digits[0];
  }

  lemma ParseNegativeDigits(digits: string, suffix: string)
    requires digits != [] && AllDigits(digits)
    requires suffix == [] || !IsDigit(suffix[0])
    ensures ParseSigned("-" + digits + suffix) == Some(-(DigitsValue(digits) as int))
  {
    ParseUnsignedDigits(digits, suffix);
    DashPrefix(digits, suffix);
    NegativeReading("-" + digits + suffix, digits + suffix, |digits|);
  }

  lemma DashPrefix(digits: string, suffix: string)
    requires digits != []
    ensures ("-" + digits + suffix)[0] == '-' && ("-" + digits + suffix)[1..] == digits + suffix
  {
    SeqFacts.AppendAssoc("-", digits, suffix);
    SeqFacts.SplitAppend("-", digits + suffix);
  }

  /** After a '-', `parseInt` reads the digit run that follows and negates it. */
  lemma NegativeReading(s: string, t: string, n: nat)
    requires s != [] && s[0] == '-' && s[1..] == t
    requires 0 < n <= |t| && DigitRun(t) == n && AllDigits(t[..n])
    ensures ParseSigned(s) == Some(-(DigitsValue(t[..n]) as int))
  {
  }

  // ---------------------------------------------------------------------
  // transformValue
  // ---------------------------------------------------------------------

  /** JavaScript truthiness of a cell value. */
  predicate Truthy(v: Value) {
    match v
    case Str(s) => s != ""
    case Num(n) => n != 0.0
    case Bool(b) => b
    case Null => false
    case Date(_) => true
  }

  /** `columnSchema.default || 0`. */
  function DefaultOrZero(col: ColumnSchema): (r: Value)
    ensures Truthy(r) || r == Num(0.0)
    ensures col.defaultValue.Some? && Truthy(col.defaultValue.value) ==> r == col.defaultValue.value
    ensures !(col.defaultValue.Some? && Truthy(col.defaultValue.value)) ==> r == Num(0.0)
  {
    if col.defaultValue.Some? && Truthy(col.defaultValue.value) then col.defaultValue.value else Num(0.0)
  }

  /** `columnSchema.name || 'unknown'`. */
  function ColumnLabel(col: ColumnSchema): string {
    if col.name.Some? && col.name.value != "" then col.name.value else "unknown"
  }

  /** The lower-case spellings the boolean coercion accepts as true. */
  const TrueWords: seq<string> := ["true", "1", "yes", "on"]

  /** `transformValue(value, columnSchema)`. */
  function TransformValue(value: string, col: ColumnSchema, rt: Runtime): (r: Result<Value, ParseError>)
    // an empty cell: the default wins, even over `required`
    ensures value == "" && col.defaultValue.Some? ==> r == Ok(col.defaultValue.value)
    // then a required column fails
    ensures value == "" && col.defaultValue.None? && col.required ==> r == Err(RequiredFieldMissing(ColumnLabel(col)))
    // otherwise null when nullable, else the empty string
    ensures value == "" && col.defaultValue.None? && !col.required ==> r == Ok(if col.nullable then Null else Str(""))
    // only a required column can make the coercion fail
    ensures r.Err? ==> col.required
    ensures value != "" && col.kind == StringType ==> r == Ok(Str(value))
    ensures value != "" && col.kind == OtherType ==> r == Ok(Str(value))
    ensures value != "" && col.kind == BooleanType ==> r == Ok(Bool(JsText.LowerAscii(value) in TrueWords))
    ensures value != "" && col.kind == IntegerType ==>
      r == (if ParseInt(value).Some? then Ok(Num(ParseInt(value).value as real))
            else if col.required then Err(InvalidInteger(value))
            else Ok(DefaultOrZero(col)))
    // `Number(value)` and `parseFloat(value)`: the number, or for NaN an error when required, else `default || 0`
    ensures value != "" && col.kind == NumberType ==>
      r == (if rt.number(value).Some? then Ok(Num(rt.number(value).value))
            else if col.required then Err(InvalidNumber(value))
            else Ok(DefaultOrZero(col)))
    ensures value != "" && col.kind == FloatType ==>
      r == (if rt.parseFloat(value).Some? then Ok(Num(rt.parseFloat(value).value))
            else if col.required then Err(InvalidFloat(value))
            else Ok(DefaultOrZero(col)))
    // `new Date(value)`: the date when valid, else an error when required, else null
    ensures value != "" && col.kind == DateType && rt.date(value).Some? ==> r == Ok(Date(rt.date(value).value))
    ensures value != "" && col.kind == DateType && rt.date(value).None? ==>
      r == (if col.required then Err(InvalidDate(value)) else Ok(Null))
  {
    if value == "" && col.defaultValue.Some? then Ok(col.defaultValue.value)
    else if value == "" && col.required then Err(RequiredFieldMissing(ColumnLabel(col)))
    else if value == "" then Ok(if col.nullable then Null else Str(""))
    else
      match col.kind
      case StringType => Ok(Str(value))
      case NumberType =>
        (match rt.number(value)
         case Some(n) => Ok(Num(n))
         case None => if col.required then Err(InvalidNumber(value)) else Ok(DefaultOrZero(col)))
      case IntegerType =>
        (match ParseInt(value)
         case Some(i) => Ok(Num(i as real))
         case None => if col.required then Err(InvalidInteger(value)) else Ok(DefaultOrZero(col)))
      case FloatType =>
        (match rt.parseFloat(value)
         case Some(f) => Ok(Num(f))
         case None => if col.required then Err(InvalidFloat(value)) else Ok(DefaultOrZero(col)))
      case BooleanType => Ok(Bool(JsText.LowerAscii(value) in TrueWords))
      case DateType =>
        (match rt.date(value)
         case Some(t) => Ok(Date(t))
         case None => if col.required then Err(InvalidDate(value)) else Ok(Null))
      case OtherType => Ok(Str(value))
  }

  /** An integer column turns the decimal form of an integer into that number. */
  lemma IntegerColumnReadsLeadingInteger(n: int, suffix: string, col: ColumnSchema, rt: Runtime)
    requires col.kind == IntegerType
    requires suffix == [] || !IsDigit(suffix[0])
    ensures TransformValue(IntToString(n) + suffix, col, rt) == Ok(Num(n as real))
  {
    var value := IntToString(n) + suffix;
    IntToStringStart(n);
    ParseLeadingInteger("", n, suffix);
    SeqFacts.AppendEmpty(IntToString(n));
    assert ParseInt(value) == Some(n);
  }

  // ---------------------------------------------------------------------
  // validateHeaders
  // ---------------------------------------------------------------------

  /** The keys of required columns absent from `headers`, in schema order. */
  function MissingRequired(headers: seq<string>, columns: seq<Column>): (missing: seq<string>)
    ensures forall k :: k in missing <==> k !in headers && RequiresKey(columns, k)
  {
    if columns == [] then []
    else
      RequiresKeyCons(columns);
      (if columns[0].spec.required && columns[0].key !in headers then [columns[0].key] else [])
        + MissingRequired(headers, columns[1..])
  }

  /** Some required column of `columns` has the key `k`. */
  predicate RequiresKey(columns: seq<Column>, k: string) {
    exists i :: 0 <= i < |columns| && columns[i].key == k && columns[i].spec.required
  }

  lemma RequiresKeyCons(columns: seq<Column>)
    requires columns != []
    ensures forall k :: RequiresKey(columns, k) <==>
      (columns[0].key == k && columns[0].spec.required) || RequiresKey(columns[1..], k)
  {
    forall k | RequiresKey(columns[1..], k)
      ensures RequiresKey(columns, k)
    {
      var i :| 0 <= i < |columns| - 1 && columns[1..][i].key == k && columns[1..][i].spec.required;
      assert columns[i + 1] == columns[1..][i];
    }
    forall k | RequiresKey(columns, k) && !(columns[0].key == k && columns[0].spec.required)
      ensures RequiresKey(columns[1..], k)
    {
      var i :| 0 <= i < |columns| && columns[i].key == k && columns[i].spec.required;
      assert i > 0 && columns[1..][i - 1] == columns[i];
    }
  }

  /** `validateHeaders(headers, schema)`. */
  function ValidateHeaders(headers: seq<string>, schema: Schema): (r: Outcome<ParseError>)
    ensures r.Fail? <==> (schema.columns.Some? &&
      exists i :: 0 <= i < |schema.columns.value| &&
        schema.columns.value[i].spec.required && schema.columns.value[i].key !in headers)
    ensures r.Fail? ==> r.error == MissingHeaders(MissingRequired(headers, schema.columns.value))
    ensures r.Fail? ==> (r.error.MissingHeaders? &&
      forall k :: k in r.error.missing ==> k !in headers)
  {
    if schema.columns.None? then Pass
    else
      var missing := MissingRequired(headers, schema.columns.value);
      MissingRequiredEmpty(headers, schema.columns.value);
      if missing == [] then Pass else Fail(MissingHeaders(missing))
  }

  lemma MissingRequiredEmpty(headers: seq<string>, columns: seq<Column>)
    ensures MissingRequired(headers, columns) == [] <==>
      !exists i :: 0 <= i < |columns| && columns[i].spec.required && columns[i].key !in headers
  {
    var missing := MissingRequired(headers, columns);
    if missing != [] {
      assert missing[0] in missing;
    } else {
      forall i | 0 <= i < |columns| && columns[i].spec.required
        ensures columns[i].key in headers
      {
        assert RequiresKey(columns, columns[i].key);
      }
    }
  }

  // ---------------------------------------------------------------------
  // validateRow and validateValueConstraints
  // ---------------------------------------------------------------------

  /** Every constraint of the column descriptor holds of a non-empty value. */
  predicate MeetsConstraints(v: Value, spec: ColumnSchema, rt: Runtime) {
    && (v.Num? && spec.min.Some? ==> v.n >= spec.min.value)
    && (v.Num? && spec.max.Some? ==> v.n <= spec.max.value)
    && (v.Str? && spec.minLength.Some? ==> |v.s| >= spec.minLength.value)
    && (v.Str? && spec.maxLength.Some? ==> |v.s| <= spec.maxLength.value)
    && (v.Str? && spec.pattern.Some? && spec.pattern.value != "" ==> rt.regexTest(spec.pattern.value, v.s) == Some(true))
    && (spec.allowed.Some? ==> v.Str? && v.s in spec.allowed.value)
  }

  /** `validateValueConstraints(value, columnSchema, column, lineNumber)`: the first failing check throws. */
  function CheckConstraints(v: Value, spec: ColumnSchema, column: string, line: nat, rt: Runtime): (r: Outcome<ParseError>)
    ensures r.Pass? <==> MeetsConstraints(v, spec, rt)
    ensures r.Fail? ==> r.error.RowInvalid? && r.error.column == column && r.error.line == line
  {
    if v.Num? && spec.min.Some? && v.n < spec.min.value then Fail(RowInvalid(column, line, BelowMinimum))
    else if v.Num? && spec.max.Some? && v.n > spec.max.value then Fail(RowInvalid(column, line, AboveMaximum))
    else if v.Str? && spec.minLength.Some? && |v.s| < spec.minLength.value then Fail(RowInvalid(column, line, TooShort))
    else if v.Str? && spec.maxLength.Some? && |v.s| > spec.maxLength.value then Fail(RowInvalid(column, line, TooLong))
    else if v.Str? && spec.pattern.Some? && spec.pattern.value != "" && rt.regexTest(spec.pattern.value, v.s) != Some(true) then
      Fail(RowInvalid(column, line, if rt.regexTest(spec.pattern.value, v.s).None? then BadPattern else PatternMismatch))
    else if spec.allowed.Some? && !(v.Str? && v.s in spec.allowed.value) then Fail(RowInvalid(column, line, NotAllowed))
    else Pass
  }

  /** `row[column]`: `None` stands for `undefined`. */
  function Lookup(row: Row, key: string): Option<Value> {
    if key in row then Some(row[key]) else None
  }

  /** `value === null || value === undefined || value === ''`. */
  predicate IsEmptyCell(v: Option<Value>) {
    v.None? || v == Some(Null) || v == Some(Str(""))
  }

  /** What `validateRow` demands of one column of a row. */
  predicate ColumnValid(row: Row, c: Column, rt: Runtime) {
    var v := Lookup(row, c.key);
    && (c.spec.required ==> !IsEmptyCell(v))
    && (!IsEmptyCell(v) ==> MeetsConstraints(v.value, c.spec, rt))
  }

  /** The `forEach` of `validateRow` over the schema's columns, stopping at the first throw. */
  function ValidateColumns(row: Row, columns: seq<Column>, line: nat, rt: Runtime): (r: Outcome<ParseError>)
    ensures r.Pass? <==> forall i :: 0 <= i < |columns| ==> ColumnValid(row, columns[i], rt)
    ensures r.Fail? ==> r.error.RowInvalid? && r.error.line == line
  {
    if columns == [] then Pass
    else
      var c := columns[0];
      var v := Lookup(row, c.key);
      if c.spec.required && IsEmptyCell(v) then Fail(RowInvalid(c.key, line, RequiredEmpty))
      else if !IsEmptyCell(v) && CheckConstraints(v.value, c.spec, c.key, line, rt).Fail? then
        CheckConstraints(v.value, c.spec, c.key, line, rt)
      else
        var rest := ValidateColumns(row, columns[1..], line, rt);
        assert forall i :: 0 <= i < |columns| - 1 ==> columns[1..][i] == columns[i + 1];
        rest
  }

  /** `validateRow(row, schema, lineNumber)`. */
  function ValidateRow(row: Row, schema: Schema, line: nat, rt: Runtime): (r: Outcome<ParseError>)
    ensures r.Pass? <==> (schema.columns.None? ||
      forall i :: 0 <= i < |schema.columns.value| ==> ColumnValid(row, schema.columns.value[i], rt))
  {
    if schema.columns.None? then Pass else ValidateColumns(row, schema.columns.value, line, rt)
  }

  // ---------------------------------------------------------------------
  // createRowObject
  // ---------------------------------------------------------------------

  /** `schema && schema.columns && schema.columns[key]`: the descriptor for a header, if any. */
  function ColumnFor(schema: Option<Schema>, key: string): Option<ColumnSchema> {
    if schema.None? || schema.value.columns.None? then None
    else FirstColumn(schema.value.columns.value, key)
  }

  function FirstColumn(columns: seq<Column>, key: string): Option<ColumnSchema> {
    if columns == [] then None
    else if columns[0].key == key then Some(columns[0].spec)
    else FirstColumn(columns[1..], key)
  }

  /** `values[index] || ''`. */
  function CellText(values: seq<string>, index: nat): string {
    if index < |values| then values[index] else ""
  }

  /** The value `createRowObject` stores for header number `index`. */
  function CellValue(headers: seq<string>, values: seq<string>, schema: Option<Schema>, rt: Runtime, index: nat)
    : Result<Value, ParseError>
    requires index < |headers|
  {
    match ColumnFor(schema, headers[index])
    case Some(spec) => TransformValue(CellText(values, index), spec, rt)
    case None => Ok(Str(CellText(values, index)))
  }

  /** The row after the `forEach` has visited the first `k` headers, or the first error thrown. */
  function RowPrefix(headers: seq<string>, values: seq<string>, schema: Option<Schema>, rt: Runtime, k: nat)
    : Result<Row, ParseError>
    requires k <= |headers|
  {
    if k == 0 then Ok(map[])
    else
      match RowPrefix(headers, values, schema, rt, k - 1)
      case Err(e) => Err(e)
      case Ok(row) =>
        match CellValue(headers, values, schema, rt, k - 1)
        case Err(e) => Err(e)
        case Ok(v) => Ok(row[headers[k - 1] := v])
  }

  /** The row object built from all headers. */
  function RowObject(headers: seq<string>, values: seq<string>, schema: Option<Schema>, rt: Runtime)
    : Result<Row, ParseError>
  {
    RowPrefix(headers, values, schema, rt, |headers|)
  }

  /** `createRowObject(headers, values, schema)`. */
  method CreateRowObject(headers: seq<string>, values: seq<string>, schema: Option<Schema>, rt: Runtime)
    returns (r: Result<Row, ParseError>)
    ensures r == RowObject(headers, values, schema, rt)
  {
    var row: Row := map[];
    var index := 0;
    while index < |headers|
      invariant 0 <= index <= |headers|
      invariant RowPrefix(headers, values, schema, rt, index) == Ok(row)
    {
      var value := if index < |values| then values[index] else "";
      var spec := ColumnFor(schema, headers[index]);
      RowPrefixNext(headers, values, schema, rt, index, row);
      if spec.Some? {
        var t := TransformValue(value, spec.value, rt);
        assert CellValue(headers, values, schema, rt, index) == t;
        if t.Err? {
          RowPrefixErrorSticks(headers, values, schema, rt, index + 1, |headers|);
          return Err(t.error);
        }
        row := row[headers[index] := t.value];
      } else {
        assert CellValue(headers, values, schema, rt, index) == Ok(Str(value));
        row := row[headers[index] := Str(value)];
      }
      index := index + 1;
    }
    return Ok(row);
  }

  /** The row after one more header: the failure of its value, or the row with that value added. */
  lemma RowPrefixNext(headers: seq<string>, values: seq<string>, schema: Option<Schema>, rt: Runtime,
                      k: nat, row: Row)
    requires k < |headers|
    requires RowPrefix(headers, values, schema, rt, k) == Ok(row)
    ensures RowPrefix(headers, values, schema, rt, k + 1) ==
      match CellValue(headers, values, schema, rt, k)
      case Err(e) => Err(e)
      case Ok(v) => Ok(row[headers[k] := v])
  {
  }

  /** Once a header fails to coerce, the row stays failed with that error. */
  lemma {:induction false} RowPrefixErrorSticks(headers: seq<string>, values: seq<string>, schema: Option<Schema>,
                                                rt: Runtime, k: nat, k': nat)
    requires k <= k' <= |headers|
    requires RowPrefix(headers, values, schema, rt, k).Err?
    ensures RowPrefix(headers, values, schema, rt, k') == RowPrefix(headers, values, schema, rt, k)
    decreases k' - k
  {
    if k < k' {
      RowPrefixErrorSticks(headers, values, schema, rt, k, k' - 1);
    }
  }

  /** The names among the first `k` headers. */
  function HeaderSet(headers: seq<string>, k: nat): set<string>
    requires k <= |headers|
  {
    set i | 0 <= i < k :: headers[i]
  }

  /** A row built from the first `k` headers has exactly those headers as keys. */
  lemma {:induction false} RowPrefixKeys(headers: seq<string>, values: seq<string>, schema: Option<Schema>,
                                         rt: Runtime, k: nat, row: Row)
    requires k <= |headers|
    requires RowPrefix(headers, values, schema, rt, k) == Ok(row)
    ensures row.Keys == HeaderSet(headers, k)
  {
    if k > 0 {
      var prev :| RowPrefix(headers, values, schema, rt, k - 1) == Ok(prev);
      RowPrefixKeys(headers, values, schema, rt, k - 1, prev);
      var v :| CellValue(headers, values, schema, rt, k - 1) == Ok(v);
      assert row == prev[headers[k - 1] := v];
      assert HeaderSet(headers, k) == HeaderSet(headers, k - 1) + {headers[k - 1]};
    }
  }

  /** In a row built from the first `k` headers, each header holds the value of its last occurrence. */
  lemma {:induction false} RowPrefixValues(headers: seq<string>, values: seq<string>, schema: Option<Schema>,
                                           rt: Runtime, k: nat, row: Row)
    requires k <= |headers|
    requires RowPrefix(headers, values, schema, rt, k) == Ok(row)
    ensures forall j :: 0 <= j < k && (forall j' :: j < j' < k ==> headers[j'] != headers[j]) ==>
      headers[j] in row && CellValue(headers, values, schema, rt, j) == Ok(row[headers[j]])
  {
    forall j | 0 <= j < k && (forall j' :: j < j' < k ==> headers[j'] != headers[j])
      ensures headers[j] in row && CellValue(headers, values, schema, rt, j) == Ok(row[headers[j]])
    {
      RowPrefixValue(headers, values, schema, rt, k, row, j);
    }
  }

  lemma {:induction false} RowPrefixValue(headers: seq<string>, values: seq<string>, schema: Option<Schema>,
                                          rt: Runtime, k: nat, row: Row, j: nat)
    requires j < k <= |headers|
    requires RowPrefix(headers, values, schema, rt, k) == Ok(row)
    requires forall j' :: j < j' < k ==> headers[j'] != headers[j]
    ensures headers[j] in row && CellValue(headers, values, schema, rt, j) == Ok(row[headers[j]])
  {
    var prev :| RowPrefix(headers, values, schema, rt, k - 1) == Ok(prev);
    var v :| CellValue(headers, values, schema, rt, k - 1) == Ok(v);
    assert row == prev[headers[k - 1] := v];
    if j < k - 1 {
      assert headers[k - 1] != headers[j];
      RowPrefixValue(headers, values, schema, rt, k - 1, prev, j);
    }
  }

  /** A row fails to build exactly when some header's value fails to coerce. */
  lemma {:induction false} RowPrefixFails(headers: seq<string>, values: seq<string>, schema: Option<Schema>,
                                          rt: Runtime, k: nat)
    requires k <= |headers|
    ensures RowPrefix(headers, values, schema, rt, k).Err? <==>
      exists j :: 0 <= j < k && CellValue(headers, values, schema, rt, j).Err?
  {
    if k > 0 {
      RowPrefixFails(headers, values, schema, rt, k - 1);
      RowPrefixStep(headers, values, schema, rt, k);
      if RowPrefix(headers, values, schema, rt, k - 1).Err? {
        var j :| 0 <= j < k - 1 && CellValue(headers, values, schema, rt, j).Err?;
        assert 0 <= j < k && CellValue(headers, values, schema, rt, j).Err?;
      } else if CellValue(headers, values, schema, rt, k - 1).Err? {
        assert 0 <= k - 1 < k && CellValue(headers, values, schema, rt, k - 1).Err?;
      } else {
        forall j | 0 <= j < k
          ensures CellValue(headers, values, schema, rt, j).Ok?
        {
          if j < k - 1 {
            assert !(0 <= j < k - 1 && CellValue(headers, values, schema, rt, j).Err?);
          }
        }
      }
    }
  }

  /** Extending a row by one header fails exactly when the row so far or the new value failed. */
  lemma RowPrefixStep(headers: seq<string>, values: seq<string>, schema: Option<Schema>, rt: Runtime, k: nat)
    requires 0 < k <= |headers|
    ensures RowPrefix(headers, values, schema, rt, k).Err? <==>
      RowPrefix(headers, values, schema, rt, k - 1).Err? || CellValue(headers, values, schema, rt, k - 1).Err?
  {
  }

  // ---------------------------------------------------------------------
  // parse
  // ---------------------------------------------------------------------

  /** What the body of the `parse` loop does with one data line. */
  datatype LineOutcome = Skip | Keep(row: Row) | Reject(error: ParseError)

  /** `values.every(v => !v.trim())`. */
  predicate AllBlank(values: seq<string>) {
    forall k :: 0 <= k < |values| ==> Trim(values[k]) == ""
  }

  /** The outcome for line number `index` (0 is the header line). */
  function LineOutcomeOf(line: string, index: nat, headers: seq<string>, schema: Option<Schema>,
                         opts: Options, rt: Runtime): LineOutcome
  {
    if opts.skipEmptyLines && Trim(line) == "" then Skip
    else FieldsOutcome(LineFields(line, opts), index, headers, schema, rt)
  }

  /** The outcome for the fields of a line that was not skipped as blank. */
  function FieldsOutcome(values: seq<string>, index: nat, headers: seq<string>, schema: Option<Schema>,
                         rt: Runtime): LineOutcome
  {
    if |values| == 0 || AllBlank(values) then Skip
    else
      match RowObject(headers, values, schema, rt)
      case Err(e) => Reject(e)
      case Ok(row) =>
        if schema.None? then Keep(row)
        else
          match ValidateRow(row, schema.value, index, rt)
          case Pass => Keep(row)
          case Fail(e) => Reject(e)
  }

  /** The outcomes of the data lines: entry `k` is for line `k + 1`. */
  function DataOutcomes(lines: seq<string>, headers: seq<string>, schema: Option<Schema>,
                        opts: Options, rt: Runtime): (outcomes: seq<LineOutcome>)
    requires |lines| >= 1
    ensures |outcomes| == |lines| - 1
  {
    seq(|lines| - 1, k => OutcomeOfLine(lines, k, headers, schema, opts, rt))
  }

  /** The outcome of line `k + 1`; entries outside the data lines are never read, and are `Skip`. */
  function OutcomeOfLine(lines: seq<string>, k: int, headers: seq<string>, schema: Option<Schema>,
                         opts: Options, rt: Runtime): LineOutcome
  {
    if 0 <= k < |lines| - 1 then LineOutcomeOf(lines[k + 1], k + 1, headers, schema, opts, rt) else Skip
  }

  /** Entry `k` of the outcomes is the outcome of line `k + 1`. */
  lemma DataOutcomeAt(lines: seq<string>, headers: seq<string>, schema: Option<Schema>,
                      opts: Options, rt: Runtime, k: nat)
    requires k < |lines| - 1
    ensures DataOutcomes(lines, headers, schema, opts, rt)[k] == LineOutcomeOf(lines[k + 1], k + 1, headers, schema, opts, rt)
  {
  }

  /**
   * The rows the loop collects from `outcomes`, whose first entry is for
   * line number `index`, or the error that aborts it in strict mode.
   */
  function Collect(outcomes: seq<LineOutcome>, index: nat, strict: bool): Result<seq<Row>, ParseError> {
    if outcomes == [] then Ok([])
    else
      match outcomes[0]
      case Skip => Collect(outcomes[1..], index + 1, strict)
      case Keep(row) => Prepend([row], Collect(outcomes[1..], index + 1, strict))
      case Reject(e) => if strict then Err(OnLine(index + 1, e)) else Collect(outcomes[1..], index + 1, strict)
  }

  function Prepend(rows: seq<Row>, r: Result<seq<Row>, ParseError>): Result<seq<Row>, ParseError> {
    match r
    case Ok(rest) => Ok(rows + rest)
    case Err(e) => Err(e)
  }

  /** The header row of a non-empty text. */
  function Headers(text: string, opts: Options): seq<string>
    requires text != ""
  {
    LineFields(SplitLines(text)[0], opts)
  }

  /** `parse(csvText, schema)`. */
  function ParseCsv(text: string, schema: Option<Schema>, opts: Options, rt: Runtime): Result<seq<Row>, ParseError> {
    if text == "" then Err(InvalidText)
    else
      var lines := SplitLines(text);
      var headers := LineFields(lines[0], opts);
      if schema.Some? && opts.validateHeaders && ValidateHeaders(headers, schema.value).Fail? then
        Err(ValidateHeaders(headers, schema.value).error)
      else
        Collect(DataOutcomes(lines, headers, schema, opts, rt), 1, opts.strictMode)
  }

  /** The body of the `parse` loop for line number `index`: its skips and its `try` block. */
  method ParseDataLine(line: string, index: nat, headers: seq<string>, schema: Option<Schema>,
                       opts: Options, rt: Runtime) returns (outcome: LineOutcome)
    ensures outcome == LineOutcomeOf(line, index, headers, schema, opts, rt)
  {
    if opts.skipEmptyLines && Trim(line) == "" {
      return Skip;
    }
    var values := ParseLine(line, opts);
    assert LineOutcomeOf(line, index, headers, schema, opts, rt) == FieldsOutcome(values, index, headers, schema, rt);
    if |values| == 0 || AllBlank(values) {
      return Skip;
    }
    var row := CreateRowObject(headers, values, schema, rt);
    if row.Err? {
      return Reject(row.error);
    }
    if schema.Some? {
      var check := ValidateRow(row.value, schema.value, index, rt);
      if check.Fail? {
        return Reject(check.error);
      }
    }
    return Keep(row.value);
  }

  /** `parse(csvText, schema)`: the checks of the JavaScript method, then its data loop; proved to compute `ParseCsv`. */
  method Parse(csvText: string, schema: Option<Schema>, opts: Options, rt: Runtime)
    returns (result: Result<seq<Row>, ParseError>)
    ensures result == ParseCsv(csvText, schema, opts, rt)
  {
    if csvText == "" {
      return Err(InvalidText);
    }
    var lines := SplitLines(csvText);
    var headers := ParseLine(lines[0], opts);
    if schema.Some? && opts.validateHeaders {
      var check := ValidateHeaders(headers, schema.value);
      if check.Fail? {
        return Err(check.error);
      }
    }
    result := ParseDataLines(lines, headers, schema, opts, rt);
  }

  /** The `for` loop of `parse` over the lines after the header line. */
  method ParseDataLines(lines: seq<string>, headers: seq<string>, schema: Option<Schema>, opts: Options, rt: Runtime)
    returns (result: Result<seq<Row>, ParseError>)
    requires |lines| >= 1
    ensures result == Collect(DataOutcomes(lines, headers, schema, opts, rt), 1, opts.strictMode)
  {
    ghost var outcomes := DataOutcomes(lines, headers, schema, opts, rt);
    ghost var expected := Collect(outcomes, 1, opts.strictMode);
    var data: seq<Row> := [];
    var i := 1;
    PrependNothing(expected);
    while i < |lines|
      invariant 1 <= i <= |lines|
      invariant expected == Prepend(data, Collect(outcomes[i - 1..], i, opts.strictMode))
    {
      var outcome := ParseDataLine(lines[i], i, headers, schema, opts, rt);
      assert outcome == outcomes[i - 1];
      CollectStep(data, outcomes, i, opts.strictMode);
      match outcome {
        case Skip =>
        case Keep(row) =>
          data := data + [row];
        case Reject(e) =>
          if opts.strictMode {
            return Err(OnLine(i + 1, e));
          }
      }
      i := i + 1;
    }
    SeqFacts.AppendEmpty(data);
    return Ok(data);
  }

  lemma PrependNothing(r: Result<seq<Row>, ParseError>)
    ensures Prepend([], r) == r
  {
    if r.Ok? {
      assert [] + r.value == r.value;
    }
  }

  /** One step of the `parse` loop, at line number `i`, on the collected rows. */
  lemma CollectStep(data: seq<Row>, outcomes: seq<LineOutcome>, i: nat, strict: bool)
    requires 1 <= i <= |outcomes|
    ensures var here := Prepend(data, Collect(outcomes[i - 1..], i, strict));
      var next := Collect(outcomes[i..], i + 1, strict);
      match outcomes[i - 1]
      case Skip => here == Prepend(data, next)
      case Keep(row) => here == Prepend(data + [row], next)
      case Reject(e) => here == if strict then Err(OnLine(i + 1, e)) else Prepend(data, next)
  {
    assert outcomes[i - 1..][1..] == outcomes[i..];
    assert outcomes[i - 1..][0] == outcomes[i - 1];
    var next := Collect(outcomes[i..], i + 1, strict);
    if outcomes[i - 1].Keep? && next.Ok? {
      SeqFacts.AppendAssoc(data, [outcomes[i - 1].row], next.value);
    }
  }

  // --- properties of parse ---------------------------------------------------

  /** Every row kept from a line has exactly the header names as keys. */
  lemma KeptRowKeys(values: seq<string>, index: nat, headers: seq<string>, schema: Option<Schema>, rt: Runtime)
    requires FieldsOutcome(values, index, headers, schema, rt).Keep?
    ensures FieldsOutcome(values, index, headers, schema, rt).row.Keys == HeaderSet(headers, |headers|)
  {
    RowPrefixKeys(headers, values, schema, rt, |headers|, FieldsOutcome(values, index, headers, schema, rt).row);
  }

  lemma {:induction false} CollectShape(outcomes: seq<LineOutcome>, index: nat, strict: bool, keys: set<string>)
    requires forall k :: 0 <= k < |outcomes| && outcomes[k].Keep? ==> outcomes[k].row.Keys == keys
    ensures Collect(outcomes, index, strict).Ok? ==> |Collect(outcomes, index, strict).value| <= |outcomes|
    ensures Collect(outcomes, index, strict).Ok? ==>
      forall k :: 0 <= k < |Collect(outcomes, index, strict).value| ==> Collect(outcomes, index, strict).value[k].Keys == keys
  {
    if outcomes != [] {
      assert forall k :: 0 <= k < |outcomes| - 1 ==> outcomes[1..][k] == outcomes[k + 1];
      CollectShape(outcomes[1..], index + 1, strict, keys);
    }
  }

  /**
   * A successful parse has at most one row per data line (so at most
   * lines - 1), and every row has exactly the header names as keys.
   */
  lemma ParsedRowsShape(text: string, schema: Option<Schema>, opts: Options, rt: Runtime)
    requires ParseCsv(text, schema, opts, rt).Ok?
    ensures |ParseCsv(text, schema, opts, rt).value| <= |SplitLines(text)| - 1
    ensures forall k :: 0 <= k < |ParseCsv(text, schema, opts, rt).value| ==>
      ParseCsv(text, schema, opts, rt).value[k].Keys == HeaderSet(Headers(text, opts), |Headers(text, opts)|)
  {
    var lines := SplitLines(text);
    var headers := Headers(text, opts);
    var outcomes := DataOutcomes(lines, headers, schema, opts, rt);
    forall k | 0 <= k < |outcomes| && outcomes[k].Keep?
      ensures outcomes[k].row.Keys == HeaderSet(headers, |headers|)
    {
      KeptOutcomeKeys(lines, headers, schema, opts, rt, k);
    }
    CollectShape(outcomes, 1, opts.strictMode, HeaderSet(headers, |headers|));
  }

  lemma KeptOutcomeKeys(lines: seq<string>, headers: seq<string>, schema: Option<Schema>,
                        opts: Options, rt: Runtime, k: nat)
    requires k < |lines| - 1
    requires DataOutcomes(lines, headers, schema, opts, rt)[k].Keep?
    ensures DataOutcomes(lines, headers, schema, opts, rt)[k].row.Keys == HeaderSet(headers, |headers|)
  {
    DataOutcomeAt(lines, headers, schema, opts, rt, k);
    KeptRowKeys(LineFields(lines[k + 1], opts), k + 1, headers, schema, rt);
  }

  lemma {:induction false} LenientCollect(outcomes: seq<LineOutcome>, index: nat)
    ensures Collect(outcomes, index, false).Ok?
  {
    if outcomes != [] {
      LenientCollect(outcomes[1..], index + 1);
    }
  }

  lemma {:induction false} StrictCollect(outcomes: seq<LineOutcome>, index: nat)
    ensures Collect(outcomes, index, true).Ok? ==> Collect(outcomes, index, true) == Collect(outcomes, index, false)
    ensures Collect(outcomes, index, true).Err? ==> Collect(outcomes, index, true).error.OnLine?
  {
    if outcomes != [] {
      StrictCollect(outcomes[1..], index + 1);
    }
  }

  /**
   * Non-strict mode skips failing rows: the parse can only fail on the
   * input itself or on the header check.
   */
  lemma LenientParseFailsOnlyUpFront(text: string, schema: Option<Schema>, opts: Options, rt: Runtime)
    requires !opts.strictMode
    ensures ParseCsv(text, schema, opts, rt).Err? ==>
      ParseCsv(text, schema, opts, rt).error == InvalidText || ParseCsv(text, schema, opts, rt).error.MissingHeaders?
  {
    if text != "" {
      var lines := SplitLines(text);
      LenientCollect(DataOutcomes(lines, Headers(text, opts), schema, opts, rt), 1);
    }
  }

  /**
   * Strict mode either aborts with the line that failed or returns exactly
   * what non-strict mode returns.
   */
  lemma StrictParseAllOrNothing(text: string, schema: Option<Schema>, opts: Options, rt: Runtime)
    ensures var strict := ParseCsv(text, schema, opts.(strictMode := true), rt);
      strict.Ok? ==> strict == ParseCsv(text, schema, opts.(strictMode := false), rt)
    ensures var strict := ParseCsv(text, schema, opts.(strictMode := true), rt);
      var lenient := ParseCsv(text, schema, opts.(strictMode := false), rt);
      strict.Err? && lenient.Ok? ==> strict.error.OnLine?
  {
    if text != "" {
      var lines := SplitLines(text);
      var on := opts.(strictMode := true);
      var off := opts.(strictMode := false);
      LineFieldsSameDialect(lines[0], on, off);
      var headers := LineFields(lines[0], on);
      var outcomes := DataOutcomes(lines, headers, schema, on, rt);
      DataOutcomesSameDialect(lines, headers, schema, on, off, rt);
      StrictCollect(outcomes, 1);
      var headerCheck := schema.Some? && opts.validateHeaders && ValidateHeaders(headers, schema.value).Fail?;
      assert ParseCsv(text, schema, on, rt)
          == if headerCheck then Err(ValidateHeaders(headers, schema.value).error) else Collect(outcomes, 1, true);
      assert ParseCsv(text, schema, off, rt)
          == if headerCheck then Err(ValidateHeaders(headers, schema.value).error) else Collect(outcomes, 1, false);
    }
  }

  /** Only the dialect and `skipEmptyLines` of the options influence the line outcomes. */
  lemma DataOutcomesSameDialect(lines: seq<string>, headers: seq<string>, schema: Option<Schema>,
                                a: Options, b: Options, rt: Runtime)
    requires |lines| >= 1
    requires SameDialect(a, b) && a.skipEmptyLines == b.skipEmptyLines
    ensures DataOutcomes(lines, headers, schema, a, rt) == DataOutcomes(lines, headers, schema, b, rt)
  {
    var outA := DataOutcomes(lines, headers, schema, a, rt);
    var outB := DataOutcomes(lines, headers, schema, b, rt);
    forall k | 0 <= k < |outA|
      ensures outA[k] == outB[k]
    {
      OutcomeAtSameDialect(lines, headers, schema, a, b, rt, k);
    }
  }

  lemma OutcomeAtSameDialect(lines: seq<string>, headers: seq<string>, schema: Option<Schema>,
                             a: Options, b: Options, rt: Runtime, k: nat)
    requires k < |lines| - 1
    requires SameDialect(a, b) && a.skipEmptyLines == b.skipEmptyLines
    ensures DataOutcomes(lines, headers, schema, a, rt)[k] == DataOutcomes(lines, headers, schema, b, rt)[k]
  {
    DataOutcomeAt(lines, headers, schema, a, rt, k);
    DataOutcomeAt(lines, headers, schema, b, rt, k);
    LineFieldsSameDialect(lines[k + 1], a, b);
  }

  /**
   * `skipEmptyLines` never changes the result: a blank line only has blank
   * fields, which the all-empty check skips anyway.
   */
  lemma SkipEmptyLinesIsRedundant(text: string, schema: Option<Schema>, opts: Options, rt: Runtime)
    ensures ParseCsv(text, schema, opts.(skipEmptyLines := true), rt) == ParseCsv(text, schema, opts.(skipEmptyLines := false), rt)
  {
    if text != "" {
      var lines := SplitLines(text);
      var on := opts.(skipEmptyLines := true);
      var off := opts.(skipEmptyLines := false);
      LineFieldsSameDialect(lines[0], on, off);
      var headers := LineFields(lines[0], on);
      DataOutcomesSkipEmpty(lines, headers, schema, opts, rt);
    }
  }

  lemma DataOutcomesSkipEmpty(lines: seq<string>, headers: seq<string>, schema: Option<Schema>,
                              opts: Options, rt: Runtime)
    requires |lines| >= 1
    ensures DataOutcomes(lines, headers, schema, opts.(skipEmptyLines := true), rt)
         == DataOutcomes(lines, headers, schema, opts.(skipEmptyLines := false), rt)
  {
    var outOn := DataOutcomes(lines, headers, schema, opts.(skipEmptyLines := true), rt);
    var outOff := DataOutcomes(lines, headers, schema, opts.(skipEmptyLines := false), rt);
    forall k | 0 <= k < |outOn|
      ensures outOn[k] == outOff[k]
    {
      OutcomeAtSkipEmpty(lines, headers, schema, opts, rt, k);
    }
  }

  lemma OutcomeAtSkipEmpty(lines: seq<string>, headers: seq<string>, schema: Option<Schema>,
                           opts: Options, rt: Runtime, k: nat)
    requires k < |lines| - 1
    ensures DataOutcomes(lines, headers, schema, opts.(skipEmptyLines := true), rt)[k]
         == DataOutcomes(lines, headers, schema, opts.(skipEmptyLines := false), rt)[k]
  {
    var on := opts.(skipEmptyLines := true);
    var off := opts.(skipEmptyLines := false);
    var line := lines[k + 1];
    DataOutcomeAt(lines, headers, schema, on, rt, k);
    DataOutcomeAt(lines, headers, schema, off, rt, k);
    SkipEmptyLineOutcome(line, k + 1, headers, schema, opts, rt);
  }

  lemma SkipEmptyLineOutcome(line: string, index: nat, headers: seq<string>, schema: Option<Schema>,
                             opts: Options, rt: Runtime)
    ensures LineOutcomeOf(line, index, headers, schema, opts.(skipEmptyLines := true), rt)
         == LineOutcomeOf(line, index, headers, schema, opts.(skipEmptyLines := false), rt)
  {
    var on := opts.(skipEmptyLines := true);
    var off := opts.(skipEmptyLines := false);
    if Trim(line) == "" {
      BlankLineFieldsSkipped(line, index, headers, schema, off, rt);
    } else {
      LineFieldsSameDialect(line, on, off);
    }
  }

  /** A blank line is skipped whether or not `skipEmptyLines` is on. */
  lemma BlankLineFieldsSkipped(line: string, index: nat, headers: seq<string>, schema: Option<Schema>,
                               opts: Options, rt: Runtime)
    requires Trim(line) == ""
    ensures LineOutcomeOf(line, index, headers, schema, opts, rt) == Skip
  {
    BlankLineAllBlank(line, opts);
  }

  lemma BlankLineAllBlank(line: string, opts: Options)
    requires Trim(line) == ""
    ensures AllBlank(LineFields(line, opts))
  {
    BlankLineBlankFields(line, opts);
    var values := LineFields(line, opts);
    forall k | 0 <= k < |values|
      ensures Trim(values[k]) == ""
    {
      assert IsBlank(values[k]);
    }
  }

  /** The number of lines that have a non-blank field. */
  function CountDataLines(lines: seq<string>, opts: Options): nat {
    if lines == [] then 0
    else (if AllBlank(LineFields(lines[0], opts)) then 0 else 1) + CountDataLines(lines[1..], opts)
  }

  /** Without a schema: a line whose fields are all blank is skipped, any other keeps its cell texts. */
  function UntypedLineOutcome(line: string, headers: seq<string>, opts: Options): LineOutcome {
    var values := LineFields(line, opts);
    if AllBlank(values) then Skip else Keep(UntypedRow(headers, values, |headers|))
  }

  /** Without a schema a line is skipped when all its fields are blank, and kept as its cell texts otherwise. */
  lemma UntypedOutcome(line: string, index: nat, headers: seq<string>, opts: Options, rt: Runtime)
    ensures LineOutcomeOf(line, index, headers, None, opts, rt) == UntypedLineOutcome(line, headers, opts)
  {
    UntypedRowPrefix(headers, LineFields(line, opts), rt, |headers|);
    if Trim(line) == "" {
      BlankLineAllBlank(line, opts);
    }
  }

  /** `outcomes` are the schema-less outcomes of `lines`, entry by entry. */
  predicate UntypedOutcomes(outcomes: seq<LineOutcome>, lines: seq<string>, headers: seq<string>, opts: Options) {
    |outcomes| == |lines| &&
    forall k :: 0 <= k < |lines| ==> outcomes[k] == UntypedLineOutcome(lines[k], headers, opts)
  }

  lemma UntypedOutcomesTail(outcomes: seq<LineOutcome>, lines: seq<string>, headers: seq<string>, opts: Options)
    requires lines != []
    requires UntypedOutcomes(outcomes, lines, headers, opts)
    ensures UntypedOutcomes(outcomes[1..], lines[1..], headers, opts)
    ensures outcomes[0] == UntypedLineOutcome(lines[0], headers, opts)
  {
    forall k | 0 <= k < |lines| - 1
      ensures outcomes[1..][k] == UntypedLineOutcome(lines[1..][k], headers, opts)
    {
      assert outcomes[1..][k] == outcomes[k + 1] && lines[1..][k] == lines[k + 1];
    }
  }

  lemma {:induction false} UntypedCollect(outcomes: seq<LineOutcome>, lines: seq<string>, first: nat,
                                          headers: seq<string>, opts: Options)
    requires UntypedOutcomes(outcomes, lines, headers, opts)
    ensures Collect(outcomes, first, opts.strictMode) == Ok(UntypedRows(lines, headers, opts))
  {
    if lines != [] {
      UntypedOutcomesTail(outcomes, lines, headers, opts);
      UntypedCollect(outcomes[1..], lines[1..], first + 1, headers, opts);
      SeqFacts.AppendEmpty(UntypedRows(lines[1..], headers, opts));
    }
  }

  /** The rows of a parse without a schema: every cell is its text. */
  function UntypedRows(lines: seq<string>, headers: seq<string>, opts: Options): (rows: seq<Row>)
    ensures |rows| == CountDataLines(lines, opts)
  {
    if lines == [] then []
    else
      var values := LineFields(lines[0], opts);
      (if AllBlank(values) then [] else [UntypedRow(headers, values, |headers|)]) + UntypedRows(lines[1..], headers, opts)
  }

  /** `createRowObject` without a schema: each header maps to its cell text, the last occurrence winning. */
  function UntypedRow(headers: seq<string>, values: seq<string>, k: nat): Row
    requires k <= |headers|
  {
    if k == 0 then map[] else UntypedRow(headers, values, k - 1)[headers[k - 1] := Str(CellText(values, k - 1))]
  }

  lemma {:induction false} UntypedRowPrefix(headers: seq<string>, values: seq<string>, rt: Runtime, k: nat)
    requires k <= |headers|
    ensures RowPrefix(headers, values, None, rt, k) == Ok(UntypedRow(headers, values, k))
  {
    if k > 0 {
      UntypedRowPrefix(headers, values, rt, k - 1);
    }
  }

  /**
   * Without a schema nothing fails, and every data line with a non-blank
   * field becomes one row holding the cell texts.
   */
  lemma ParseWithoutSchema(text: string, opts: Options, rt: Runtime)
    requires text != ""
    ensures ParseCsv(text, None, opts, rt) == Ok(UntypedRows(SplitLines(text)[1..], Headers(text, opts), opts))
    ensures |ParseCsv(text, None, opts, rt).value| == CountDataLines(SplitLines(text)[1..], opts)
  {
    var lines := SplitLines(text);
    var headers := Headers(text, opts);
    var outcomes := DataOutcomes(lines, headers, None, opts, rt);
    assert ParseCsv(text, None, opts, rt) == Collect(outcomes, 1, opts.strictMode);
    UntypedDataOutcomes(lines, headers, opts, rt);
    UntypedCollect(outcomes, lines[1..], 1, headers, opts);
  }

  lemma UntypedDataOutcomes(lines: seq<string>, headers: seq<string>, opts: Options, rt: Runtime)
    requires |lines| >= 1
    ensures UntypedOutcomes(DataOutcomes(lines, headers, None, opts, rt), lines[1..], headers, opts)
  {
    var outcomes := DataOutcomes(lines, headers, None, opts, rt);
    forall k | 0 <= k < |lines| - 1
      ensures outcomes[k] == UntypedLineOutcome(lines[1..][k], headers, opts)
    {
      assert lines[1..][k] == lines[k + 1];
      UntypedDataOutcome(lines, headers, opts, rt, k);
    }
  }

  lemma UntypedDataOutcome(lines: seq<string>, headers: seq<string>, opts: Options, rt: Runtime, k: nat)
    requires k < |lines| - 1
    ensures DataOutcomes(lines, headers, None, opts, rt)[k] == UntypedLineOutcome(lines[k + 1], headers, opts)
  {
    DataOutcomeAt(lines, headers, None, opts, rt, k);
    UntypedOutcome(lines[k + 1], k + 1, headers, opts, rt);
  }
}
