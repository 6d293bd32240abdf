/** The ledger's CSV export, read back by a reader for the quoting rules of section 2 of RFC 4180
    with rows that end in LF. */
module CsvExport {
  import opened Wrappers

  // ----- Printing

  predicate StartsFormula(v: string) {
    v != "" && (v[0] == '=' || v[0] == '+' || v[0] == '-' || v[0] == '@' || v[0] == '\t' || v[0] == '\r')
  }

  /** A leading formula character is defused with a single quote. */
  function Guard(v: string): string {
    if StartsFormula(v) then "'" + v else v
  }

  function DoubleQuotes(v: string): string {
    if v == "" then ""
    else (if v[0] == '"' then "\"\"" else [v[0]]) + DoubleQuotes(v[1..])
  }

  function CsvCell(v: string): string {
    "\"" + DoubleQuotes(Guard(v)) + "\""
  }

  function Join(parts: seq<string>, separator: char): string {
    if parts == [] then ""
    else if |parts| == 1 then parts[0]
    else Join(parts[..|parts| - 1], separator) + [separator] + parts[|parts| - 1]
  }

  function Cells(fields: seq<string>): (cells: seq<string>)
    ensures |cells| == |fields|
    ensures forall i :: 0 <= i < |fields| ==> cells[i] == CsvCell(fields[i])
  {
    seq(|fields|, i requires 0 <= i < |fields| => CsvCell(fields[i]))
  }

  function Digit(d: nat): char
    requires d < 10
  {
    "0123456789"[d]
  }

  function Decimal(n: nat): string {
    if n < 10 then [Digit(n)] else Decimal(n / 10) + [Digit(n % 10)]
  }

  datatype LedgerRow = LedgerRow(
    id: string,
    nombaTransactionRef: string,
    direction: string,
    amountKobo: nat,
    currency: string,
    senderName: Option<string>,
    customerNameSnapshot: string,
    kycTierAtTime: string,
    reconciliationStatus: string,
    receivedAt: string)

  /** The ten values of a row; the amount column is in whole naira. */
  function Fields(e: LedgerRow): (fields: seq<string>)
    ensures |fields| == 10
  {
    [e.id, e.nombaTransactionRef, e.direction, Decimal(e.amountKobo / 100), e.currency,
     if e.senderName.Some? then e.senderName.value else "",
     e.customerNameSnapshot, e.kycTierAtTime, e.reconciliationStatus, e.receivedAt]
  }

  const HEADER_FIELDS: seq<string> := [
    "entryId", "nombaTransactionRef", "direction", "amountNgn", "currency", "senderName",
    "customerNameSnapshot", "kycTierAtTime", "reconciliationStatus", "receivedAt"]

  function PrintRow(fields: seq<string>): string {
    Join(Cells(fields), ',')
  }

  function Lines(header: seq<string>, rows: seq<seq<string>>): (lines: seq<string>)
    ensures |lines| == |rows| + 1
  {
    [Join(header, ',')] + seq(|rows|, i requires 0 <= i < |rows| => PrintRow(rows[i]))
  }

  function PrintTable(header: seq<string>, rows: seq<seq<string>>): string {
    Join(Lines(header, rows), '\n')
  }

  function Rows(entries: seq<LedgerRow>): (rows: seq<seq<string>>)
    ensures |rows| == |entries|
    ensures forall i :: 0 <= i < |entries| ==> rows[i] == Fields(entries[i])
  {
    seq(|entries|, i requires 0 <= i < |entries| => Fields(entries[i]))
  }

  function ExportCsv(entries: seq<LedgerRow>): string {
    PrintTable(HEADER_FIELDS, Rows(entries))
  }

  // ----- Reading

  datatype Mode = FieldStart | InPlain | InQuoted | QuoteSeen

  datatype Reader =
    | Reader(mode: Mode, field: string, fields: seq<string>, records: seq<seq<string>>)
    | Malformed

  const START := Reader(FieldStart, "", [], [])

  function EndField(r: Reader): Reader
    requires r.Reader?
  {
    Reader(FieldStart, "", r.fields + [r.field], r.records)
  }

  function EndRecord(r: Reader): Reader
    requires r.Reader?
  {
    Reader(FieldStart, "", [], r.records + [r.fields + [r.field]])
  }

  function Feed(r: Reader, c: char): Reader {
    match r
    case Malformed => Malformed
    case Reader(mode, field, _, _) =>
      match mode
      case InQuoted => if c == '"' then r.(mode := QuoteSeen) else r.(field := field + [c])
      case QuoteSeen =>
        if c == '"' then r.(mode := InQuoted, field := field + [c])
        else if c == ',' then EndField(r)
        else if c == '\n' then EndRecord(r)
        else Malformed
      case _ =>
        if c == ',' then EndField(r)
        else if c == '\n' then EndRecord(r)
        else if c == '\r' then Malformed
        else if c == '"' then (if mode == FieldStart then r.(mode := InQuoted) else Malformed)
        else r.(mode := InPlain, field := field + [c])
  }

  function Read(r: Reader, text: string): Reader
    decreases |text|
  {
    if text == "" then r else Read(Feed(r, text[0]), text[1..])
  }

  function Finish(r: Reader): Option<seq<seq<string>>> {
    if r.Malformed? || r.mode == InQuoted then None
    else Some(r.records + [r.fields + [r.field]])
  }

  function ParseCsv(text: string): Option<seq<seq<string>>> {
    Finish(Read(START, text))
  }

  // ----- Reading what was printed

  lemma {:induction false} ReadConcat(r: Reader, a: string, b: string)
    ensures Read(r, a + b) == Read(Read(r, a), b)
    decreases |a|
  {
    if a == "" {
      assert a + b == b;
    } else {
      assert (a + b)[1..] == a[1..] + b;
      ReadConcat(Feed(r, a[0]), a[1..], b);
    }
  }

  lemma ReadOne(r: Reader, c: char)
    ensures Read(r, [c]) == Feed(r, c)
  {
    assert [c][1..] == "";
  }

  lemma {:induction false} ReadDoubled(r: Reader, v: string)
    requires r.Reader? && r.mode == InQuoted
    ensures Read(r, DoubleQuotes(v)) == r.(field := r.field + v)
    decreases |v|
  {
    if v == "" {
      assert r.field + v == r.field;
    } else {
      var first := if v[0] == '"' then "\"\"" else [v[0]];
      var next := r.(field := r.field + [v[0]]);
      ReadConcat(r, first, DoubleQuotes(v[1..]));
      if v[0] == '"' {
        assert "\"\""[1..] == "\"";
        ReadOne(Feed(r, '"'), '"');
      } else {
        ReadOne(r, v[0]);
      }
      assert Read(r, first) == next;
      ReadDoubled(next, v[1..]);
      assert r.field + [v[0]] + v[1..] == r.field + v;
    }
  }

  /** A printed cell is read back as one field, whatever its value contains. */
  lemma ReadCell(fields: seq<string>, records: seq<seq<string>>, v: string)
    ensures Read(Reader(FieldStart, "", fields, records), CsvCell(v)) == Reader(QuoteSeen, Guard(v), fields, records)
  {
    var r := Reader(FieldStart, "", fields, records);
    var body := DoubleQuotes(Guard(v));
    assert CsvCell(v) == "\"" + (body + "\"");
    ReadConcat(r, "\"", body + "\"");
    ReadOne(r, '"');
    var open := Reader(InQuoted, "", fields, records);
    ReadConcat(open, body, "\"");
    ReadDoubled(open, Guard(v));
    assert "" + Guard(v) == Guard(v);
    ReadOne(Reader(InQuoted, Guard(v), fields, records), '"');
  }

  function GuardAll(fields: seq<string>): (guarded: seq<string>)
    ensures |guarded| == |fields|
    ensures forall i :: 0 <= i < |fields| ==> guarded[i] == Guard(fields[i])
  {
    seq(|fields|, i requires 0 <= i < |fields| => Guard(fields[i]))
  }

  lemma PrintRowSnoc(fields: seq<string>)
    requires |fields| >= 2
    ensures var n := |fields| - 1;
      PrintRow(fields) == PrintRow(fields[..n]) + ("," + CsvCell(fields[n]))
  {
    var n := |fields| - 1;
    assert Cells(fields)[..n] == Cells(fields[..n]);
    assert Join(Cells(fields), ',') == Join(Cells(fields)[..n], ',') + "," + Cells(fields)[n];
  }

  lemma ReadNextCell(r: Reader, v: string)
    requires r.Reader? && r.mode == QuoteSeen
    ensures Read(r, "," + CsvCell(v)) == Reader(QuoteSeen, Guard(v), r.fields + [r.field], r.records)
  {
    ReadConcat(r, ",", CsvCell(v));
    ReadOne(r, ',');
    ReadCell(r.fields + [r.field], r.records, v);
  }

  lemma GuardAllSnoc(fields: seq<string>)
    requires fields != []
    ensures GuardAll(fields) == GuardAll(fields[..|fields| - 1]) + [Guard(fields[|fields| - 1])]
  {
  }

  lemma {:induction false} ReadRow(records: seq<seq<string>>, fields: seq<string>)
    requires fields != []
    ensures var n := |fields| - 1;
      Read(Reader(FieldStart, "", [], records), PrintRow(fields))
      == Reader(QuoteSeen, Guard(fields[n]), GuardAll(fields[..n]), records)
    decreases |fields|
  {
    var start := Reader(FieldStart, "", [], records);
    var n := |fields| - 1;
    if n == 0 {
      ReadCell([], records, fields[0]);
      assert GuardAll(fields[..0]) == [];
    } else {
      PrintRowSnoc(fields);
      ReadConcat(start, PrintRow(fields[..n]), "," + CsvCell(fields[n]));
      ReadRow(records, fields[..n]);
      ReadNextCell(Read(start, PrintRow(fields[..n])), fields[n]);
      GuardAllSnoc(fields[..n]);
    }
  }

  ghost predicate Plain(v: string) {
    v != "" && forall i :: 0 <= i < |v| ==> v[i] != ',' && v[i] != '"' && v[i] != '\n' && v[i] != '\r'
  }

  lemma {:induction false} ReadPlain(r: Reader, v: string)
    requires r.Reader? && (r.mode == FieldStart || r.mode == InPlain)
    requires Plain(v)
    ensures Read(r, v) == r.(mode := InPlain, field := r.field + v)
    decreases |v|
  {
    var next := r.(mode := InPlain, field := r.field + [v[0]]);
    assert Feed(r, v[0]) == next;
    if |v| == 1 {
      assert v[1..] == "" && v == [v[0]];
    } else {
      ReadPlain(next, v[1..]);
      assert r.field + [v[0]] + v[1..] == r.field + v;
    }
  }

  lemma {:induction false} ReadPlainRow(fields: seq<string>)
    requires fields != [] && forall i :: 0 <= i < |fields| ==> Plain(fields[i])
    ensures Read(START, Join(fields, ',')) == Reader(InPlain, fields[|fields| - 1], fields[..|fields| - 1], [])
    decreases |fields|
  {
    var n := |fields| - 1;
    if n == 0 {
      ReadPlain(START, fields[0]);
      assert "" + fields[0] == fields[0];
    } else {
      var before := Join(fields[..n], ',');
      assert Join(fields, ',') == before + ("," + fields[n]);
      ReadPlainRow(fields[..n]);
      var r := Read(START, before);
      ReadConcat(START, before, "," + fields[n]);
      ReadConcat(r, ",", fields[n]);
      ReadOne(r, ',');
      assert fields[..n][..n - 1] + [fields[n - 1]] == fields[..n];
      ReadPlain(Reader(FieldStart, "", fields[..n], []), fields[n]);
      assert "" + fields[n] == fields[n];
    }
  }

  lemma HeaderStartIsPlain()
    ensures Plain("entryId") && Plain("nombaTransactionRef") && Plain("direction") && Plain("amountNgn") && Plain("currency")
  {
  }

  lemma HeaderEndIsPlain()
    ensures Plain("senderName") && Plain("customerNameSnapshot") && Plain("kycTierAtTime")
    ensures Plain("reconciliationStatus") && Plain("receivedAt")
  {
  }

  lemma HeaderIsPlain()
    ensures forall i :: 0 <= i < |HEADER_FIELDS| ==> Plain(HEADER_FIELDS[i])
  {
    HeaderStartIsPlain();
    HeaderEndIsPlain();
  }

  function GuardRows(rows: seq<seq<string>>): (guarded: seq<seq<string>>)
    ensures |guarded| == |rows|
    ensures forall i :: 0 <= i < |rows| ==> guarded[i] == GuardAll(rows[i])
  {
    seq(|rows|, i requires 0 <= i < |rows| => GuardAll(rows[i]))
  }

  function Records(entries: seq<LedgerRow>): (records: seq<seq<string>>)
    ensures |records| == |entries| + 1 && records[0] == HEADER_FIELDS
    ensures forall i :: 0 <= i < |entries| ==> records[i + 1] == GuardAll(Fields(entries[i]))
  {
    [HEADER_FIELDS] + GuardRows(Rows(entries))
  }

  ghost predicate Closes(r: Reader, records: seq<seq<string>>) {
    r.Reader? && (r.mode == InPlain || r.mode == QuoteSeen) && r.records + [r.fields + [r.field]] == records
  }

  lemma TableSnoc(header: seq<string>, rows: seq<seq<string>>)
    requires rows != []
    ensures var n := |rows| - 1;
      PrintTable(header, rows) == PrintTable(header, rows[..n]) + ("\n" + PrintRow(rows[n]))
  {
    var lines, n := Lines(header, rows), |rows|;
    assert lines[..n] == Lines(header, rows[..n - 1]);
    assert Join(lines, '\n') == Join(lines[..n], '\n') + "\n" + lines[n];
  }

  lemma ReadNextRow(r: Reader, records: seq<seq<string>>, fields: seq<string>)
    requires Closes(r, records) && fields != []
    ensures Closes(Read(r, "\n" + PrintRow(fields)), records + [GuardAll(fields)])
  {
    ReadConcat(r, "\n", PrintRow(fields));
    ReadOne(r, '\n');
    assert EndRecord(r) == Reader(FieldStart, "", [], records);
    ReadRow(records, fields);
    GuardAllSnoc(fields);
  }

  lemma {:induction false} ReadTable(header: seq<string>, rows: seq<seq<string>>)
    requires header != [] && forall i :: 0 <= i < |header| ==> Plain(header[i])
    requires forall i :: 0 <= i < |rows| ==> rows[i] != []
    ensures Closes(Read(START, PrintTable(header, rows)), [header] + GuardRows(rows))
    decreases |rows|
  {
    if rows == [] {
      ReadPlainRow(header);
      assert Lines(header, []) == [Join(header, ',')];
      assert header[..|header| - 1] + [header[|header| - 1]] == header;
      assert [header] + GuardRows([]) == [] + [header];
    } else {
      var n := |rows| - 1;
      var before := PrintTable(header, rows[..n]);
      TableSnoc(header, rows);
      ReadTable(header, rows[..n]);
      ReadConcat(START, before, "\n" + PrintRow(rows[n]));
      ReadNextRow(Read(START, before), [header] + GuardRows(rows[..n]), rows[n]);
      assert [header] + GuardRows(rows[..n]) + [GuardAll(rows[n])] == [header] + GuardRows(rows);
    }
  }

  /** Print then parse: the reader gets the ten-column header and exactly one ten-field record per entry,
      each field its value, defused where it starts a formula; for arbitrary contents. */
  lemma ExportParses(entries: seq<LedgerRow>)
    ensures ParseCsv(ExportCsv(entries)) == Some(Records(entries))
    ensures forall i :: 0 <= i < |Records(entries)| ==> |Records(entries)[i]| == 10
  {
    HeaderIsPlain();
    ReadTable(HEADER_FIELDS, Rows(entries));
  }

  /** No field of any record starts a spreadsheet formula. */
  lemma NoFormulaSurvives(entries: seq<LedgerRow>, i: nat, j: nat)
    requires i < |entries| && j < 10
    ensures !StartsFormula(Records(entries)[i + 1][j])
  {
  }

  /** Two exports are the same text exactly when all their defused fields are the same. */
  lemma ExportInjectiveOnFields(a: seq<LedgerRow>, b: seq<LedgerRow>)
    ensures ExportCsv(a) == ExportCsv(b) <==> Records(a) == Records(b)
  {
    ExportParses(a);
    ExportParses(b);
    if Records(a) == Records(b) {
      assert |a| == |b|;
      forall i | 0 <= i < |a|
        ensures PrintRow(Fields(a[i])) == PrintRow(Fields(b[i]))
      {
        assert Records(a)[i + 1] == Records(b)[i + 1];
        SameGuardsSameRow(Fields(a[i]), Fields(b[i]));
      }
      assert Lines(HEADER_FIELDS, Rows(a)) == Lines(HEADER_FIELDS, Rows(b));
    }
  }

  lemma SameGuardsSameRow(a: seq<string>, b: seq<string>)
    requires GuardAll(a) == GuardAll(b)
    ensures PrintRow(a) == PrintRow(b)
  {
    forall i | 0 <= i < |a| ensures Cells(a)[i] == Cells(b)[i] {
      assert GuardAll(a)[i] == GuardAll(b)[i];
    }
    assert Cells(a) == Cells(b);
  }

  /** What the guard loses: two values collide only when one is the other behind a single quote. */
  lemma GuardCollisions(a: string, b: string)
    ensures Guard(a) == Guard(b) <==>
      a == b || (StartsFormula(a) && b == "'" + a) || (StartsFormula(b) && a == "'" + b)
  {
    if StartsFormula(a) && StartsFormula(b) && Guard(a) == Guard(b) {
      assert Guard(a)[1..] == a && Guard(b)[1..] == b;
    }
    if a == "'" + b || b == "'" + a {
      assert "'"[0] == '\'';
    }
  }

  // ----- The amount column

  function Value(text: string): nat {
    if text == "" then 0
    else Value(text[..|text| - 1]) * 10 + (if '0' <= text[|text| - 1] <= '9' then (text[|text| - 1] - '0') as nat else 0)
  }

  lemma {:induction false} DecimalRoundTrip(n: nat)
    ensures Value(Decimal(n)) == n && Decimal(n) != "" && !StartsFormula(Decimal(n))
    decreases n
  {
    var last := Digit(n % 10);
    assert '0' <= last <= '9' && (last - '0') as nat == n % 10;
    if n < 10 {
      assert Decimal(n)[..0] == "";
    } else {
      DecimalRoundTrip(n / 10);
      assert Decimal(n)[..|Decimal(n)| - 1] == Decimal(n / 10);
      assert Decimal(n)[0] == Decimal(n / 10)[0];
    }
  }

  /** The fourth field of a record is the amount in whole naira: kobo are cut off. */
  lemma AmountColumn(entries: seq<LedgerRow>, i: nat)
    requires i < |entries|
    ensures Value(Records(entries)[i + 1][3]) == entries[i].amountKobo / 100
  {
    DecimalRoundTrip(entries[i].amountKobo / 100);
  }

  // ----- Every column

  /** What the reader sees of a value: the value, behind a single quote if it starts with one of six characters. */
  predicate Shows(text: string, v: string) {
    text == if v != "" && v[0] in {'=', '+', '-', '@', '\t', '\r'} then "'" + v else v
  }

  lemma GuardShows(v: string)
    ensures Shows(Guard(v), v)
  {
  }

  /** The ten fields of a record are the ten attributes of its entry, in the order of the header. */
  ghost predicate ShowsEntry(record: seq<string>, e: LedgerRow) {
    && |record| == 10
    && Shows(record[0], e.id) && Shows(record[1], e.nombaTransactionRef) && Shows(record[2], e.direction)
    && Value(record[3]) == e.amountKobo / 100 && Shows(record[4], e.currency)
    && Shows(record[5], match e.senderName case Some(name) => name case None => "")
    && Shows(record[6], e.customerNameSnapshot) && Shows(record[7], e.kycTierAtTime)
    && Shows(record[8], e.reconciliationStatus) && Shows(record[9], e.receivedAt)
  }

  lemma RecordShowsEntry(e: LedgerRow)
    ensures ShowsEntry(GuardAll(Fields(e)), e)
  {
    var fields := Fields(e);
    forall j | 0 <= j < 10 ensures Shows(GuardAll(fields)[j], fields[j]) {
      GuardShows(fields[j]);
    }
    DecimalRoundTrip(e.amountKobo / 100);
    assert GuardAll(fields)[3] == Decimal(e.amountKobo / 100);
  }

  /** Column by column, for arbitrary contents: the reader gets the header and, under it, each entry's attributes. */
  lemma ExportColumns(entries: seq<LedgerRow>, i: nat)
    requires i < |entries|
    ensures ParseCsv(ExportCsv(entries)).Some? && |ParseCsv(ExportCsv(entries)).value| == |entries| + 1
    ensures ParseCsv(ExportCsv(entries)).value[0]
         == ["entryId", "nombaTransactionRef", "direction", "amountNgn", "currency", "senderName",
             "customerNameSnapshot", "kycTierAtTime", "reconciliationStatus", "receivedAt"]
    ensures ShowsEntry(ParseCsv(ExportCsv(entries)).value[i + 1], entries[i])
  {
    ExportParses(entries);
    RecordShowsEntry(entries[i]);
  }
}
