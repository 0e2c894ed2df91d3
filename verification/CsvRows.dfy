/**
 The rows of the request history file, and a reader for them.  The writer quotes a
 field when it has to, doubles embedded quotes, and defuses text a spreadsheet would
 take for a formula.  The reader is the grammar of section 2 of RFC 4180 with a line
 feed as line end; `FileReadsBack` says the two are inverse on any list of events.
 */
module CsvRows {
  import opened Prelude

  /** `timestamp` is the already formatted time of the event. */
  datatype RequestEvent = RequestEvent(
    seqNo: nat, timestamp: string, clientIp: string, country: string, isp: string, userAgent: string,
    verb: string, path: string, domain: string, listener: string, blocked: bool, blockReason: string,
    bytesTransferred: nat, statusCode: int)

  // ------------------------------------------------------------------ printing

  predicate FormulaLike(raw: string) {
    raw != "" && (raw[0] == '=' || raw[0] == '+' || raw[0] == '-' || raw[0] == '@' || raw[0] == '\t' || raw[0] == '\r')
  }

  function Neutralised(raw: string): string {
    if FormulaLike(raw) then "'" + raw else raw
  }

  predicate IsSpecial(c: char) {
    c == ',' || c == '"' || c == '\n' || c == '\r'
  }

  predicate NeedsQuotes(value: string) {
    exists i :: 0 <= i < |value| && IsSpecial(value[i])
  }

  function Doubled(value: string): string {
    if value == "" then "" else Doubled(Front(value)) + if Last(value) == '"' then "\"\"" else [Last(value)]
  }

  function Printed(raw: string): string {
    var value := Neutralised(raw);
    if NeedsQuotes(value) then "\"" + Doubled(value) + "\"" else value
  }

  method CsvEscape(raw: string) returns (escaped: string)
    ensures escaped == Printed(raw)
  {
    var formulaLike := raw != "" && (raw[0] == '=' || raw[0] == '+' || raw[0] == '-' || raw[0] == '@' || raw[0] == '\t' || raw[0] == '\r');
    var value := if formulaLike then "'" + raw else raw;
    var special := false;
    for i := 0 to |value|
      invariant special <==> exists k :: 0 <= k < i && IsSpecial(value[k])
    {
      special := special || IsSpecial(value[i]);
    }
    if !special {
      return value;
    }
    escaped := "\"";
    for i := 0 to |value|
      invariant escaped == "\"" + Doubled(value[..i])
    {
      assert Front(value[..i + 1]) == value[..i];
      if value[i] == '"' {
        escaped := escaped + "\"";
      }
      escaped := escaped + [value[i]];
    }
    assert value[..|value|] == value;
    escaped := escaped + "\"";
  }

  function Digit(d: nat): char
    requires d < 10
  {
    ['0', '1', '2', '3', '4', '5', '6', '7', '8', '9'][d]
  }

  function Decimal(n: nat): string {
    if n < 10 then [Digit(n)] else Decimal(n / 10) + [Digit(n % 10)]
  }

  function Signed(n: int): string {
    if n < 0 then "-" + Decimal(-n) else Decimal(n)
  }

  /** A column of a row: visitor-controlled text, or something the log itself formats. */
  datatype Column = Text(raw: string) | Literal(text: string)

  function Columns(e: RequestEvent): seq<Column> {
    [Literal(Decimal(e.seqNo)), Literal(e.timestamp), Text(e.clientIp), Text(e.country), Text(e.isp), Text(e.userAgent),
     Text(e.verb), Text(e.path), Text(e.domain), Text(e.listener), Literal(if e.blocked then "true" else "false"),
     Text(e.blockReason), Literal(Decimal(e.bytesTransferred)), Literal(Signed(e.statusCode))]
  }

  function CellOf(c: Column): string {
    match c case Text(raw) => Printed(raw) case Literal(text) => text
  }

  function FieldOf(c: Column): string {
    match c case Text(raw) => Neutralised(raw) case Literal(text) => text
  }

  function Cells(columns: seq<Column>): seq<string> {
    seq(|columns|, i requires 0 <= i < |columns| => CellOf(columns[i]))
  }

  /** The fields of one event as a reader should see them. */
  function Fields(e: RequestEvent): seq<string> {
    seq(14, i requires 0 <= i < 14 => FieldOf(Columns(e)[i]))
  }

  function Joined(cells: seq<string>): string {
    if cells == [] then "" else if |cells| == 1 then cells[0] else Joined(Front(cells)) + "," + Last(cells)
  }

  function Row(e: RequestEvent): string {
    Joined(Cells(Columns(e))) + "\n"
  }

  /** What `row` prints for each element, one after the other. */
  function Flat<T>(row: T -> string, events: seq<T>): string {
    if events == [] then "" else Flat(row, Front(events)) + row(Last(events))
  }

  lemma {:induction false} FlatConcat<T>(row: T -> string, a: seq<T>, b: seq<T>)
    ensures Flat(row, a + b) == Flat(row, a) + Flat(row, b)
  {
    if b == [] {
      assert a + b == a;
    } else {
      FlatConcat(row, a, Front(b));
      assert Front(a + b) == a + Front(b) && Last(a + b) == Last(b);
      calc {
        Flat(row, a + b);
        Flat(row, a + Front(b)) + row(Last(b));
        Flat(row, a) + Flat(row, Front(b)) + row(Last(b));
        Flat(row, a) + (Flat(row, Front(b)) + row(Last(b)));
      }
    }
  }

  function Rows(events: seq<RequestEvent>): string {
    Flat(Row, events)
  }

  lemma {:induction false} JoinedUnfolds(c: seq<string>)
    requires |c| == 14
    ensures Joined(c) == c[0] + "," + c[1] + "," + c[2] + "," + c[3] + "," + c[4] + "," + c[5] + "," + c[6] + "," + c[7]
                         + "," + c[8] + "," + c[9] + "," + c[10] + "," + c[11] + "," + c[12] + "," + c[13]
  {
    FirstEight(c);
    JoinNext(c, 8); JoinNext(c, 9); JoinNext(c, 10); JoinNext(c, 11); JoinNext(c, 12); JoinNext(c, 13);
    assert c[..14] == c;
  }

  lemma {:induction false} FirstEight(c: seq<string>)
    requires |c| == 14
    ensures Joined(c[..8]) == c[0] + "," + c[1] + "," + c[2] + "," + c[3] + "," + c[4] + "," + c[5] + "," + c[6] + "," + c[7]
  {
    JoinNext(c, 1); JoinNext(c, 2); JoinNext(c, 3); JoinNext(c, 4); JoinNext(c, 5); JoinNext(c, 6); JoinNext(c, 7);
  }

  lemma {:induction false} JoinNext(cells: seq<string>, k: nat)
    requires 1 <= k < |cells|
    ensures Joined(cells[..k + 1]) == Joined(cells[..k]) + "," + cells[k]
  {
    assert Front(cells[..k + 1]) == cells[..k];
  }

  method ToCsvRow(e: RequestEvent) returns (row: string)
    ensures row == Row(e)
  {
    row := Decimal(e.seqNo);
    row := row + ",";
    row := row + e.timestamp;
    row := row + ",";
    var cell := CsvEscape(e.clientIp);
    row := row + cell;
    row := row + ",";
    cell := CsvEscape(e.country);
    row := row + cell;
    row := row + ",";
    cell := CsvEscape(e.isp);
    row := row + cell;
    row := row + ",";
    cell := CsvEscape(e.userAgent);
    row := row + cell;
    row := row + ",";
    cell := CsvEscape(e.verb);
    row := row + cell;
    row := row + ",";
    cell := CsvEscape(e.path);
    row := row + cell;
    row := row + ",";
    cell := CsvEscape(e.domain);
    row := row + cell;
    row := row + ",";
    cell := CsvEscape(e.listener);
    row := row + cell;
    row := row + ",";
    row := row + if e.blocked then "true" else "false";
    row := row + ",";
    cell := CsvEscape(e.blockReason);
    row := row + cell;
    row := row + ",";
    row := row + Decimal(e.bytesTransferred);
    row := row + ",";
    row := row + Signed(e.statusCode);
    row := row + "\n";
    JoinedUnfolds(Cells(Columns(e)));
  }

  // ------------------------------------------------------------------ reading

  datatype Mode = FieldStart | Bare | Quoted | QuoteSeen | Bad

  datatype Reader = Reader(mode: Mode, field: string, record: seq<string>, records: seq<seq<string>>)

  function EndField(r: Reader): Reader {
    Reader(FieldStart, "", r.record + [r.field], r.records)
  }

  function EndRecord(r: Reader): Reader {
    Reader(FieldStart, "", [], r.records + [r.record + [r.field]])
  }

  function ReadChar(r: Reader, c: char): Reader {
    match r.mode
    case Bad => r
    case Quoted => if c == '"' then r.(mode := QuoteSeen) else r.(field := r.field + [c])
    case FieldStart =>
      if c == '"' then r.(mode := Quoted)
      else if c == ',' then EndField(r) else if c == '\n' then EndRecord(r)
      else if c == '\r' then r.(mode := Bad) else r.(mode := Bare, field := r.field + [c])
    case Bare =>
      if c == ',' then EndField(r) else if c == '\n' then EndRecord(r)
      else if c == '"' || c == '\r' then r.(mode := Bad) else r.(field := r.field + [c])
    case QuoteSeen =>
      if c == '"' then r.(mode := Quoted, field := r.field + [c])
      else if c == ',' then EndField(r) else if c == '\n' then EndRecord(r) else r.(mode := Bad)
  }

  function ReadAll(r: Reader, text: string): Reader {
    if text == "" then r else ReadChar(ReadAll(r, Front(text)), Last(text))
  }

  const AT_START := Reader(FieldStart, "", [], [])

  /** The records of a file whose last line is complete. */
  function Parse(text: string): Option<seq<seq<string>>> {
    var r := ReadAll(AT_START, text);
    if r.mode == FieldStart && r.record == [] && r.field == "" then Some(r.records) else None
  }

  lemma {:induction false} ReadConcat(r: Reader, a: string, b: string)
    ensures ReadAll(r, a + b) == ReadAll(ReadAll(r, a), b)
    decreases |b|
  {
    if b == "" {
      assert a + b == a;
    } else {
      assert Front(a + b) == a + Front(b);
      ReadConcat(r, a, Front(b));
    }
  }

  lemma {:induction false} ReadOne(r: Reader, c: char)
    ensures ReadAll(r, [c]) == ReadChar(r, c)
  {
    assert Front([c]) == "";
    assert ReadAll(r, "") == r;
  }

  predicate Plain(value: string) {
    !NeedsQuotes(value)
  }

  /** `r` stands right behind a complete field with this value. */
  ghost predicate Behind(r: Reader, start: Reader, value: string) {
    && r.mode in {FieldStart, Bare, QuoteSeen}
    && r.field == value && r.record == start.record && r.records == start.records
  }

  /** Printing `cell` where a field may start makes a reader see `value`. */
  ghost predicate ReadsAs(cell: string, value: string) {
    forall start: Reader :: start.mode == FieldStart && start.field == "" ==> Behind(ReadAll(start, cell), start, value)
  }

  lemma {:induction false} PlainReads(start: Reader, value: string)
    requires Plain(value) && start.mode == FieldStart && start.field == ""
    ensures ReadAll(start, value) == if value == "" then start else start.(mode := Bare, field := value)
  {
    if value != "" {
      assert Plain(Front(value)) by {
        forall i | 0 <= i < |Front(value)| ensures !IsSpecial(Front(value)[i]) { assert !IsSpecial(value[i]); }
      }
      assert !IsSpecial(value[|value| - 1]);
      PlainReads(start, Front(value));
      assert value == Front(value) + [Last(value)];
    }
  }

  lemma {:induction false} DoubledReads(start: Reader, value: string)
    requires start.mode == Quoted
    ensures ReadAll(start, Doubled(value)) == start.(field := start.field + value)
  {
    if value != "" {
      DoubledReads(start, Front(value));
      var r := ReadAll(start, Doubled(Front(value)));
      var c := Last(value);
      assert start.field + value == r.field + [c];
      if c == '"' {
        assert "\"\"" == [c] + [c];
        ReadConcat(r, [c], [c]);
        ReadOne(r, c);
        ReadOne(ReadChar(r, c), c);
      } else {
        ReadOne(r, c);
      }
      ReadConcat(start, Doubled(Front(value)), if c == '"' then "\"\"" else [c]);
    }
  }

  lemma {:induction false} PlainReadsAs(value: string)
    requires Plain(value)
    ensures ReadsAs(value, value)
  {
    forall start: Reader | start.mode == FieldStart && start.field == ""
      ensures Behind(ReadAll(start, value), start, value)
    {
      PlainReads(start, value);
    }
  }

  /** Arbitrary text, quotes, commas and line ends included, reads back as its neutralised self. */
  lemma {:induction false} PrintedReadsAs(raw: string)
    ensures ReadsAs(Printed(raw), Neutralised(raw))
  {
    var value := Neutralised(raw);
    if !NeedsQuotes(value) {
      PlainReadsAs(value);
    } else {
      forall start: Reader | start.mode == FieldStart && start.field == ""
        ensures Behind(ReadAll(start, Printed(raw)), start, value)
      {
        ReadOne(start, '"');
        var open := start.(mode := Quoted);
        assert "\"" == ['"'];
        ReadConcat(start, "\"", Doubled(value));
        DoubledReads(open, value);
        ReadConcat(start, "\"" + Doubled(value), "\"");
        ReadOne(open.(field := value), '"');
        assert "" + value == value;
      }
    }
  }

  lemma {:induction false} DecimalPlain(n: nat)
    ensures Plain(Decimal(n)) && Decimal(n) != ""
  {
    if n >= 10 {
      DecimalPlain(n / 10);
      forall i | 0 <= i < |Decimal(n)| ensures !IsSpecial(Decimal(n)[i]) {
        if i < |Decimal(n / 10)| { assert !IsSpecial(Decimal(n / 10)[i]); }
      }
    }
  }

  lemma {:induction false} SignedPlain(n: int)
    ensures Plain(Signed(n))
  {
    if n < 0 {
      DecimalPlain(-n);
      forall i | 0 <= i < |Signed(n)| ensures !IsSpecial(Signed(n)[i]) {
        if i > 0 { assert !IsSpecial(Decimal(-n)[i - 1]); }
      }
    } else {
      DecimalPlain(n);
    }
  }

  lemma {:induction false} JoinedReads(start: Reader, cells: seq<string>, values: seq<string>)
    requires |cells| == |values| > 0 && start.mode == FieldStart && start.field == ""
    requires forall i :: 0 <= i < |cells| ==> ReadsAs(cells[i], values[i])
    ensures Behind(ReadAll(start, Joined(cells)), start.(record := start.record + Front(values)), Last(values))
  {
    assert ReadsAs(cells[|cells| - 1], values[|cells| - 1]);
    if |cells| == 1 {
      FirstCellReads(start, cells, values);
    } else {
      var record, last := start.record + Front(Front(values)), Last(Front(values));
      JoinedReads(start, Front(cells), Front(values));
      NextCellReads(start, Joined(Front(cells)), Last(cells), record, last, Last(values));
      FrontsJoin(start.record, values);
    }
  }

  lemma {:induction false} FirstCellReads(start: Reader, cells: seq<string>, values: seq<string>)
    requires |cells| == |values| == 1 && start.mode == FieldStart && start.field == "" && ReadsAs(cells[0], values[0])
    ensures Behind(ReadAll(start, Joined(cells)), start.(record := start.record + Front(values)), Last(values))
  {
    assert start.record + Front(values) == start.record;
  }

  lemma {:induction false} FrontsJoin(record: seq<string>, values: seq<string>)
    requires |values| > 1
    ensures record + Front(Front(values)) + [Last(Front(values))] == record + Front(values)
  {
  }

  lemma {:induction false} NextCellReads(start: Reader, before: string, cell: string, record: seq<string>, last: string, value: string)
    requires Behind(ReadAll(start, before), start.(record := record), last) && ReadsAs(cell, value)
    requires start.mode == FieldStart && start.field == ""
    ensures Behind(ReadAll(start, before + "," + cell), start.(record := record + [last]), value)
  {
    ReadConcat(start, before, ",");
    ReadOne(ReadAll(start, before), ',');
    assert "," == [','];
    ReadConcat(start, before + ",", cell);
  }

  lemma {:induction false} ColumnReads(c: Column)
    requires c.Literal? ==> Plain(c.text)
    ensures ReadsAs(CellOf(c), FieldOf(c))
  {
    match c
    case Text(raw) => PrintedReadsAs(raw);
    case Literal(text) => PlainReadsAs(text);
  }

  /** The timestamp is the one field printed as it comes; formatted times hold none of the four special characters. */
  lemma {:induction false} LiteralsArePlain(e: RequestEvent, i: nat)
    requires Plain(e.timestamp) && i < 14 && Columns(e)[i].Literal?
    ensures Plain(Columns(e)[i].text)
  {
    DecimalPlain(e.seqNo);
    DecimalPlain(e.bytesTransferred);
    SignedPlain(e.statusCode);
  }

  lemma {:induction false} RowReads(start: Reader, e: RequestEvent)
    requires start.mode == FieldStart && start.field == "" && start.record == [] && Plain(e.timestamp)
    ensures ReadAll(start, Row(e)) == start.(records := start.records + [Fields(e)])
  {
    var cells, values := Cells(Columns(e)), Fields(e);
    forall i | 0 <= i < |cells| ensures ReadsAs(cells[i], values[i]) {
      if Columns(e)[i].Literal? { LiteralsArePlain(e, i); }
      ColumnReads(Columns(e)[i]);
    }
    JoinedReads(start, cells, values);
    var r := ReadAll(start, Joined(cells));
    ReadConcat(start, Joined(cells), "\n");
    ReadOne(r, '\n');
    assert "\n" == ['\n'];
    assert [] + Front(values) + [Last(values)] == values;
  }

  function AllFields(events: seq<RequestEvent>): seq<seq<string>> {
    if events == [] then [] else AllFields(Front(events)) + [Fields(Last(events))]
  }

  ghost predicate Timestamped(events: seq<RequestEvent>) {
    forall e :: e in events ==> Plain(e.timestamp)
  }

  lemma {:induction false} RowsRead(events: seq<RequestEvent>)
    requires Timestamped(events)
    ensures ReadAll(AT_START, Rows(events)) == AT_START.(records := AllFields(events))
  {
    if events != [] {
      assert Last(events) in events && forall e :: e in Front(events) ==> e in events;
      RowsRead(Front(events));
      var r := ReadAll(AT_START, Rows(Front(events)));
      RowReads(r, Last(events));
      ReadConcat(AT_START, Rows(Front(events)), Row(Last(events)));
    }
  }

  /** Any list of events written one row after the other reads back as exactly their fields. */
  lemma {:induction false} FileReadsBack(events: seq<RequestEvent>)
    requires Timestamped(events)
    ensures Parse(Rows(events)) == Some(AllFields(events))
  {
    RowsRead(events);
  }

  lemma {:induction false} AllFieldsAt(events: seq<RequestEvent>, n: nat)
    requires n < |events|
    ensures |AllFields(events)| == |events| && AllFields(events)[n] == Fields(events[n])
  {
    if n < |events| - 1 { AllFieldsAt(Front(events), n); }
    else if n > 0 { AllFieldsAt(Front(events), 0); }
  }

  /** Every record has fourteen fields, and no column of visitor-controlled text reads back as a formula. */
  lemma {:induction false} NoFormulaSurvives(events: seq<RequestEvent>, n: nat, i: nat)
    requires Timestamped(events) && n < |events| && i < 14
    ensures Parse(Rows(events)).Some? && |Parse(Rows(events)).value| == |events| && |Parse(Rows(events)).value[n]| == 14
    ensures 2 <= i <= 9 || i == 11 ==> !FormulaLike(Parse(Rows(events)).value[n][i])
  {
    FileReadsBack(events);
    AllFieldsAt(events, n);
    assert 2 <= i <= 9 || i == 11 ==> Columns(events[n])[i].Text?;
  }

  /** A defused field is recovered unchanged exactly when it did not look like a formula. */
  lemma {:induction false} RecoveredExactly(raw: string)
    ensures Neutralised(raw) == raw <==> !FormulaLike(raw)
    ensures FormulaLike(raw) ==> Neutralised(raw) == "'" + raw
  {
    assert |"'" + raw| == |raw| + 1;
  }

  // ------------------------------------------------------------------ column by column

  /** Text that a spreadsheet could take for a formula gets an apostrophe in front. */
  predicate Defuses(raw: string, field: string) {
    if raw != "" && raw[0] in {'=', '+', '-', '@', '\t', '\r'} then field == ['\''] + raw else field == raw
  }

  /** The number that a text of decimal digits stands for. */
  function NumberOf(text: string): nat
    requires forall i :: 0 <= i < |text| ==> '0' <= text[i] <= '9'
  {
    if text == "" then 0 else 10 * NumberOf(Front(text)) + (Last(text) as int - '0' as int)
  }

  /** Decimal digits without a leading zero, and the number they stand for. */
  predicate Spells(text: string, n: int) {
    && text != "" && (forall i :: 0 <= i < |text| ==> '0' <= text[i] <= '9') && (|text| > 1 ==> text[0] != '0')
    && NumberOf(text) == n
  }

  predicate SpellsSigned(text: string, n: int) {
    Spells(text, n) || (n < 0 && text != "" && text[0] == '-' && Spells(text[1..], -n))
  }

  lemma {:induction false} DecimalSpells(n: nat)
    ensures Spells(Decimal(n), n)
  {
    if n >= 10 {
      DecimalSpells(n / 10);
      var d := Decimal(n);
      assert Front(d) == Decimal(n / 10) && Last(d) == Digit(n % 10);
      DigitSpells(n % 10);
      forall i | 0 <= i < |d| ensures '0' <= d[i] <= '9' {
        if i < |d| - 1 { assert d[i] == Decimal(n / 10)[i]; }
      }
      assert NumberOf(d) == 10 * NumberOf(Front(d)) + n % 10;
      NotZero(n / 10);
    } else {
      DigitSpells(n);
      assert Front(Decimal(n)) == "";
    }
  }

  lemma {:induction false} DigitSpells(d: nat)
    requires d < 10
    ensures '0' <= Digit(d) <= '9' && Digit(d) as int - '0' as int == d
  {
  }

  lemma {:induction false} NotZero(n: nat)
    requires n > 0
    ensures Decimal(n) != "" && Decimal(n)[0] != '0'
  {
    if n >= 10 { NotZero(n / 10); } else { DigitSpells(n); }
  }

  /** What a reader finds in the record of one event, column by column, in the order of the header. */
  predicate Records(e: RequestEvent, record: seq<string>) {
    && |record| == 14
    && Spells(record[0], e.seqNo) && record[1] == e.timestamp
    && Defuses(e.clientIp, record[2]) && Defuses(e.country, record[3]) && Defuses(e.isp, record[4]) && Defuses(e.userAgent, record[5])
    && Defuses(e.verb, record[6]) && Defuses(e.path, record[7]) && Defuses(e.domain, record[8]) && Defuses(e.listener, record[9])
    && record[10] == (if e.blocked then "true" else "false") && Defuses(e.blockReason, record[11])
    && Spells(record[12], e.bytesTransferred) && SpellsSigned(record[13], e.statusCode)
  }

  lemma {:induction false} TextDefuses(raw: string)
    ensures Defuses(raw, FieldOf(Text(raw)))
  {
    assert "'" == ['\''];
  }

  lemma {:induction false} SignedSpells(n: int)
    ensures SpellsSigned(Signed(n), n)
  {
    if n >= 0 { DecimalSpells(n); } else { NegativeSpells(n); }
  }

  lemma {:induction false} FieldsAre(e: RequestEvent)
    ensures Fields(e) == [
      Decimal(e.seqNo), e.timestamp, FieldOf(Text(e.clientIp)), FieldOf(Text(e.country)), FieldOf(Text(e.isp)), FieldOf(Text(e.userAgent)),
      FieldOf(Text(e.verb)), FieldOf(Text(e.path)), FieldOf(Text(e.domain)), FieldOf(Text(e.listener)), if e.blocked then "true" else "false",
      FieldOf(Text(e.blockReason)), Decimal(e.bytesTransferred), Signed(e.statusCode)]
  {
  }

  lemma {:induction false} VisitorColumns(e: RequestEvent)
    ensures Defuses(e.clientIp, Fields(e)[2]) && Defuses(e.country, Fields(e)[3]) && Defuses(e.isp, Fields(e)[4]) && Defuses(e.userAgent, Fields(e)[5])
  {
    FieldsAre(e);
    TextDefuses(e.clientIp); TextDefuses(e.country); TextDefuses(e.isp); TextDefuses(e.userAgent);
  }

  lemma {:induction false} RequestColumns(e: RequestEvent)
    ensures Defuses(e.verb, Fields(e)[6]) && Defuses(e.path, Fields(e)[7]) && Defuses(e.domain, Fields(e)[8]) && Defuses(e.listener, Fields(e)[9])
    ensures Defuses(e.blockReason, Fields(e)[11])
  {
    FieldsAre(e);
    TextDefuses(e.verb); TextDefuses(e.path); TextDefuses(e.domain); TextDefuses(e.listener); TextDefuses(e.blockReason);
  }

  lemma {:induction false} OwnColumns(e: RequestEvent)
    ensures Spells(Fields(e)[0], e.seqNo) && Fields(e)[1] == e.timestamp && Fields(e)[10] == (if e.blocked then "true" else "false")
    ensures Spells(Fields(e)[12], e.bytesTransferred) && SpellsSigned(Fields(e)[13], e.statusCode)
  {
    FieldsAre(e);
    DecimalSpells(e.seqNo);
    DecimalSpells(e.bytesTransferred);
    SignedSpells(e.statusCode);
  }

  lemma {:induction false} FieldsRecord(e: RequestEvent)
    ensures Records(e, Fields(e))
  {
    VisitorColumns(e);
    RequestColumns(e);
    OwnColumns(e);
  }

  lemma {:induction false} NegativeSpells(n: int)
    requires n < 0
    ensures SpellsSigned(Signed(n), n)
  {
    DecimalSpells(-n);
    assert Signed(n)[1..] == Decimal(-n);
  }

  /** Whatever the events, the file reads as one record for each, and the record says what happened in its column. */
  lemma {:induction false} FileSaysWhatHappened(events: seq<RequestEvent>)
    requires Timestamped(events)
    ensures Parse(Rows(events)).Some? && |Parse(Rows(events)).value| == |events|
    ensures forall n :: 0 <= n < |events| ==> Records(events[n], Parse(Rows(events)).value[n])
  {
    FileReadsBack(events);
    if events != [] { AllFieldsAt(events, 0); }
    forall n | 0 <= n < |events| ensures Records(events[n], Parse(Rows(events)).value[n]) {
      AllFieldsAt(events, n);
      FieldsRecord(events[n]);
    }
  }

  /** A field is quoted only if it has a comma, a quote or a line end in it. */
  lemma {:induction false} QuotedExactly(raw: string, field: string)
    requires Defuses(raw, field)
    ensures if ',' in field || '"' in field || '\n' in field || '\r' in field
            then |Printed(raw)| >= 2 && Printed(raw)[0] == '"' && Last(Printed(raw)) == '"'
            else Printed(raw) == field
  {
    TextDefuses(raw);
    assert field == Neutralised(raw);
    if ',' in field || '"' in field || '\n' in field || '\r' in field {
      var i :| 0 <= i < |field| && (field[i] == ',' || field[i] == '"' || field[i] == '\n' || field[i] == '\r');
      assert IsSpecial(field[i]);
    } else {
      assert forall i :: 0 <= i < |field| ==> !IsSpecial(field[i]);
    }
  }
}
