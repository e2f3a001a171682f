/** The usage report as a spreadsheet, and a reader that gets every record back out of it. */
module Csv {
  import opened Shared
  import opened UsageReport

  predicate IsSpecial(c: char) { c == '"' || c == ',' || c == '\n' }

  predicate Plain(s: string) {
    forall i :: 0 <= i < |s| ==> !IsSpecial(s[i])
  }

  function Doubled(s: string): string {
    if s == "" then "" else Doubled(s[..|s| - 1]) + if s[|s| - 1] == '"' then "\"\"" else [s[|s| - 1]]
  }

  /** Quotes stand around a field that could be misread without them, and twice for each one in it. */
  function Field(value: string): string {
    if Plain(value) then value else "\"" + Doubled(value) + "\""
  }

  function Joined(fields: seq<string>, separator: char): string {
    if fields == [] then ""
    else if |fields| == 1 then fields[0]
    else Joined(fields[..|fields| - 1], separator) + [separator] + fields[|fields| - 1]
  }

  const HEADER := ["when", "who", "model", "task", "duration_ms", "cost_usd"]

  // ---- Numbers, as they are written ---------------------------------------------------

  /** A whole number in decimal. */
  function Whole(n: int): string {
    if n < 0 then "-" + Decimal(-n) else Decimal(n)
  }

  function Padded(n: nat, width: nat): (text: string)
    ensures |text| == width
    ensures forall i :: 0 <= i < |text| ==> '0' <= text[i] <= '9'
    decreases width
  {
    if width == 0 then "" else Padded(n / 10, width - 1) + Decimal(n % 10)
  }

  /** The nearest millionth, halves upwards. */
  function Millionths(x: real): nat
    requires x >= 0.0
  {
    (x * 1_000_000.0 + 0.5).Floor
  }

  function SixPlaces(millionths: nat): string {
    Decimal(millionths / 1_000_000) + "." + Padded(millionths % 1_000_000, 6)
  }

  /** What `toFixed(6)` writes. */
  function FixedSix(x: real): string {
    if x < 0.0 then "-" + SixPlaces(Millionths(-x)) else SixPlaces(Millionths(x))
  }

  lemma {:induction false} WorthJoin(a: string, b: string)
    requires forall i :: 0 <= i < |a| ==> '0' <= a[i] <= '9'
    requires |b| == 1 && '0' <= b[0] <= '9'
    ensures Worth(a + b) == Worth(a) * 10 + Worth(b)
  {
    assert (a + b)[..|a|] == a && b[..0] == "";
  }

  function PowerOfTen(width: nat): nat {
    if width == 0 then 1 else 10 * PowerOfTen(width - 1)
  }

  lemma {:induction false} PaddedReadsBack(n: nat, width: nat)
    requires n < PowerOfTen(width)
    ensures Worth(Padded(n, width)) == n
  {
    if width > 0 {
      PaddedReadsBack(n / 10, width - 1);
      WorthJoin(Padded(n / 10, width - 1), Decimal(n % 10));
      DecimalReadsBack(n % 10);
    }
  }

  /** A whole number reads back from its digits, after a minus if it is negative. */
  lemma WholeReadsBack(n: int)
    ensures n >= 0 ==> Worth(Whole(n)) == n
    ensures n < 0 ==> Whole(n)[0] == '-' && Whole(n)[1..] == Decimal(-n) && Worth(Decimal(-n)) == -n
  {
    DecimalReadsBack(if n < 0 then -n else n);
  }

  lemma SixPlacesReadBack(millionths: nat) returns (whole: string, part: string)
    ensures SixPlaces(millionths) == whole + "." + part && |whole| > 0 && |part| == 6
    ensures forall i :: 0 <= i < |whole| ==> '0' <= whole[i] <= '9'
    ensures forall i :: 0 <= i < 6 ==> '0' <= part[i] <= '9'
    ensures Worth(whole) * 1_000_000 + Worth(part) == millionths
  {
    whole, part := Decimal(millionths / 1_000_000), Padded(millionths % 1_000_000, 6);
    DecimalReadsBack(millionths / 1_000_000);
    PaddedReadsBack(millionths % 1_000_000, 6);
  }

  /** A cost reads back from its digits, six of them after the point, to within half a millionth of a dollar. */
  lemma CostReadsBack(usd: real) returns (whole: string, part: string, millionths: nat)
    ensures FixedSix(usd) == (if usd < 0.0 then "-" else "") + whole + "." + part && |whole| > 0 && |part| == 6
    ensures forall i :: 0 <= i < |whole| ==> '0' <= whole[i] <= '9'
    ensures forall i :: 0 <= i < 6 ==> '0' <= part[i] <= '9'
    ensures Worth(whole) * 1_000_000 + Worth(part) == millionths
    ensures var size := if usd < 0.0 then -usd else usd;
      millionths as real - 0.5 <= size * 1_000_000.0 < millionths as real + 0.5
  {
    millionths := Millionths(if usd < 0.0 then -usd else usd);
    whole, part := SixPlacesReadBack(millionths);
  }

  function CostOf(line: Line): string {
    if line.usd.None? then "" else FixedSix(line.usd.value)
  }

  function FieldsOf(line: Line, iso: int -> string): seq<string> {
    [iso(line.at), Field(line.who), Field(line.model), Field(line.taskTitle), Whole(line.ms), CostOf(line)]
  }

  function RowOf(line: Line, iso: int -> string): string {
    Joined(FieldsOf(line, iso), ',')
  }

  function RowsOf(lines: seq<Line>, iso: int -> string): (r: seq<string>)
    ensures |r| == |lines| && forall i :: 0 <= i < |lines| ==> r[i] == RowOf(lines[i], iso)
  {
    seq(|lines|, i requires 0 <= i < |lines| => RowOf(lines[i], iso))
  }

  /** The report as a spreadsheet; `iso` writes an instant. */
  function AsCsv(report: Report, iso: int -> string): string {
    Joined([Joined(HEADER, ',')] + RowsOf(report.lines, iso), '\n')
  }

  // ---- A reader of section 2 of RFC 4180, with a line feed as the record break ------

  datatype Mode = AtStart | InPlain | InQuotes | AfterQuote | Broken

  datatype Reader = Reader(records: seq<seq<string>>, fields: seq<string>, text: string, mode: Mode)

  function EndField(r: Reader): Reader {
    Reader(r.records, r.fields + [r.text], "", AtStart)
  }

  function EndRecord(r: Reader): Reader {
    Reader(r.records + [r.fields + [r.text]], [], "", AtStart)
  }

  function ReadChar(r: Reader, c: char): Reader {
    match r.mode
    case Broken => r
    case InQuotes => if c == '"' then r.(mode := AfterQuote) else r.(text := r.text + [c])
    case _ =>
      if c == ',' then EndField(r)
      else if c == '\n' then EndRecord(r)
      else if c == '"' then
        if r.mode.AtStart? then r.(mode := InQuotes)
        else if r.mode.AfterQuote? then r.(mode := InQuotes, text := r.text + [c])
        else r.(mode := Broken)
      else if r.mode.AfterQuote? then r.(mode := Broken)
      else r.(mode := InPlain, text := r.text + [c])
  }

  function ReadAll(r: Reader, s: string): Reader {
    if s == "" then r else ReadChar(ReadAll(r, s[..|s| - 1]), s[|s| - 1])
  }

  /** The records of a file, or nothing when its quoting is broken. */
  function Parse(s: string): Option<seq<seq<string>>> {
    var r := ReadAll(Reader([], [], "", AtStart), s);
    if r.mode.Broken? || r.mode.InQuotes? then None else Some(EndRecord(r).records)
  }

  // ---- Reading back what was written --------------------------------------------------

  lemma {:induction false} ReadJoin(r: Reader, a: string, b: string)
    ensures ReadAll(r, a + b) == ReadAll(ReadAll(r, a), b)
  {
    if b == "" {
      assert a + b == a;
    } else {
      assert (a + b)[..|a + b| - 1] == a + b[..|b| - 1];
      ReadJoin(r, a, b[..|b| - 1]);
    }
  }

  lemma ReadOne(r: Reader, c: char)
    ensures ReadAll(r, [c]) == ReadChar(r, c)
  {
  }

  lemma ReadTwo(r: Reader, c: char, d: char)
    ensures ReadAll(r, [c, d]) == ReadChar(ReadChar(r, c), d)
  {
    assert [c, d][..1] == [c];
    ReadOne(r, c);
  }

  lemma {:induction false} ReadPlain(r: Reader, s: string)
    requires r.mode.AtStart? && r.text == "" && Plain(s)
    ensures ReadAll(r, s) == if s == "" then r else r.(mode := InPlain, text := s)
  {
    if s != "" {
      ReadPlain(r, s[..|s| - 1]);
      assert s == s[..|s| - 1] + [s[|s| - 1]];
      assert !IsSpecial(s[|s| - 1]);
    }
  }

  lemma {:induction false} ReadDoubled(r: Reader, s: string)
    requires r.mode.InQuotes?
    ensures ReadAll(r, Doubled(s)) == r.(text := r.text + s)
  {
    if s == "" {
      assert r.text + s == r.text;
    } else {
      var init, c := s[..|s| - 1], s[|s| - 1];
      ReadDoubled(r, init);
      assert r.text + s == r.text + init + [c];
      var before := r.(text := r.text + init);
      if c == '"' {
        ReadJoin(r, Doubled(init), ['"', '"']);
        ReadTwo(before, '"', '"');
      } else {
        ReadJoin(r, Doubled(init), [c]);
        ReadOne(before, c);
      }
    }
  }

  /** The reader has read all of a record but the comma, line feed or end that follows its last field. */
  ghost predicate Holds(r: Reader, records: seq<seq<string>>, record: seq<string>) {
    r.records == records && r.fields + [r.text] == record && !r.mode.Broken? && !r.mode.InQuotes?
  }

  lemma ReadField(r: Reader, value: string)
    requires r.mode.AtStart? && r.text == ""
    ensures Holds(ReadAll(r, Field(value)), r.records, r.fields + [value])
  {
    if Plain(value) {
      ReadPlain(r, value);
    } else {
      ReadJoin(r, "\"" + Doubled(value), "\"");
      ReadJoin(r, "\"", Doubled(value));
      ReadOne(r, '"');
      var inside := r.(mode := InQuotes);
      ReadDoubled(inside, value);
      assert "" + value == value;
      ReadOne(inside.(text := value), '"');
    }
  }

  lemma {:induction false} ReadRow(r: Reader, written: seq<string>, values: seq<string>)
    requires r.mode.AtStart? && r.text == "" && r.fields == []
    requires |written| == |values| > 0
    requires forall i :: 0 <= i < |values| ==> written[i] == Field(values[i])
    ensures Holds(ReadAll(r, Joined(written, ',')), r.records, values)
  {
    var n := |values| - 1;
    if n == 0 {
      ReadField(r, values[0]);
      assert r.fields + [values[0]] == values;
    } else {
      var before := Joined(written[..n], ',');
      ReadRow(r, written[..n], values[..n]);
      OneMoreField(r, before, written[n], values[..n], values[n]);
      assert Joined(written, ',') == before + [','] + written[n] by { JoinedOneMore(written, ','); }
      assert values == values[..n] + [values[n]];
    }
  }

  lemma JoinedOneMore(fields: seq<string>, separator: char)
    requires |fields| > 1
    ensures Joined(fields, separator) == Joined(fields[..|fields| - 1], separator) + [separator] + fields[|fields| - 1]
  {
  }

  lemma OneMoreField(r: Reader, before: string, written: string, values: seq<string>, value: string)
    requires Holds(ReadAll(r, before), r.records, values) && written == Field(value)
    ensures Holds(ReadAll(r, before + [','] + written), r.records, values + [value])
  {
    ReadJoin(r, before + [','], written);
    ReadJoin(r, before, [',']);
    ReadOne(ReadAll(r, before), ',');
    ReadField(EndField(ReadAll(r, before)), value);
  }

  /** Text that is one record on its own. */
  ghost predicate ReadsAs(row: string, record: seq<string>) {
    forall r: Reader :: r.mode.AtStart? && r.text == "" && r.fields == [] ==> Holds(ReadAll(r, row), r.records, record)
  }

  lemma {:induction false} ReadRows(rows: seq<string>, records: seq<seq<string>>)
    requires |rows| == |records| > 0
    requires forall i :: 0 <= i < |rows| ==> ReadsAs(rows[i], records[i])
    ensures Holds(ReadAll(Reader([], [], "", AtStart), Joined(rows, '\n')),
                  records[..|records| - 1], records[|records| - 1])
  {
    var n := |rows| - 1;
    assert ReadsAs(rows[n], records[n]);
    if n == 0 {
      assert records[..0] == [];
    } else {
      ReadRows(rows[..n], records[..n]);
      assert records[..n][..n - 1] + [records[n - 1]] == records[..n];
      OneMoreRow(Joined(rows[..n], '\n'), rows[n], records[..n][..n - 1], records[n - 1], records[n]);
    }
  }

  lemma OneMoreRow(before: string, row: string, records: seq<seq<string>>, last: seq<string>, next: seq<string>)
    requires Holds(ReadAll(Reader([], [], "", AtStart), before), records, last) && ReadsAs(row, next)
    ensures Holds(ReadAll(Reader([], [], "", AtStart), before + ['\n'] + row), records + [last], next)
  {
    var start := Reader([], [], "", AtStart);
    ReadJoin(start, before + ['\n'], row);
    ReadJoin(start, before, ['\n']);
    ReadOne(ReadAll(start, before), '\n');
  }

  /** What a spreadsheet should show for a call: an unpriced one leaves its cost empty. */
  function RecordOf(line: Line, iso: int -> string): seq<string> {
    [iso(line.at), line.who, line.model, line.taskTitle, Whole(line.ms), CostOf(line)]
  }

  function RecordsOf(lines: seq<Line>, iso: int -> string): (r: seq<seq<string>>)
    ensures |r| == |lines| && forall i :: 0 <= i < |lines| ==> r[i] == RecordOf(lines[i], iso)
  {
    seq(|lines|, i requires 0 <= i < |lines| => RecordOf(lines[i], iso))
  }

  /** Writing an instant never needs quotes, as no time in the form of ISO 8601 does. */
  ghost predicate WritesPlainly(iso: int -> string) {
    forall t :: Plain(iso(t))
  }

  lemma PlainJoin(a: string, b: string)
    requires Plain(a) && Plain(b)
    ensures Plain(a + b)
  {
  }

  lemma SixPlacesArePlain(millionths: nat)
    ensures Plain(SixPlaces(millionths)) && SixPlaces(millionths) != ""
  {
    var whole, part := Decimal(millionths / 1_000_000), Padded(millionths % 1_000_000, 6);
    PlainJoin(whole, ".");
    PlainJoin(whole + ".", part);
  }

  lemma NumbersArePlain(n: int, x: real)
    ensures Plain(Whole(n)) && Plain(FixedSix(x)) && FixedSix(x) != ""
  {
    if n < 0 { PlainJoin("-", Decimal(-n)); }
    var size := if x < 0.0 then -x else x;
    SixPlacesArePlain(Millionths(size));
    PlainJoin("-", SixPlaces(Millionths(size)));
  }

  /** The numbers and the time of a row could have been written as fields like the rest. */
  lemma WrittenAsFields(line: Line, iso: int -> string)
    requires WritesPlainly(iso)
    ensures forall i :: 0 <= i < 6 ==> FieldsOf(line, iso)[i] == Field(RecordOf(line, iso)[i])
  {
    NumbersArePlain(line.ms, if line.usd.Some? then line.usd.value else 0.0);
    assert Plain(iso(line.at));
  }

  lemma FieldsReadBack(written: seq<string>, values: seq<string>)
    requires |written| == |values| > 0
    requires forall i :: 0 <= i < |values| ==> written[i] == Field(values[i])
    ensures ReadsAs(Joined(written, ','), values)
  {
    forall r: Reader | r.mode.AtStart? && r.text == "" && r.fields == []
      ensures Holds(ReadAll(r, Joined(written, ',')), r.records, values)
    {
      ReadRow(r, written, values);
    }
  }

  lemma RowReadsBack(line: Line, iso: int -> string)
    requires WritesPlainly(iso)
    ensures ReadsAs(RowOf(line, iso), RecordOf(line, iso))
  {
    WrittenAsFields(line, iso);
    FieldsReadBack(FieldsOf(line, iso), RecordOf(line, iso));
  }

  lemma PlainFieldsReadBack(fields: seq<string>)
    requires |fields| > 0 && forall i :: 0 <= i < |fields| ==> Plain(fields[i])
    ensures ReadsAs(Joined(fields, ','), fields)
  {
    FieldsReadBack(fields, fields);
  }

  lemma ParseHeld(s: string, records: seq<seq<string>>, last: seq<string>)
    requires Holds(ReadAll(Reader([], [], "", AtStart), s), records, last)
    ensures Parse(s) == Some(records + [last])
  {
  }

  lemma RowsParse(rows: seq<string>, records: seq<seq<string>>)
    requires |rows| == |records| > 0
    requires forall i :: 0 <= i < |rows| ==> ReadsAs(rows[i], records[i])
    ensures Parse(Joined(rows, '\n')) == Some(records)
  {
    assert records[..|records| - 1] + [records[|records| - 1]] == records;
    ReadRows(rows, records);
    ParseHeld(Joined(rows, '\n'), records[..|records| - 1], records[|records| - 1]);
  }

  /** A record in the columns of the header; only an unpriced call has no cost. */
  ghost predicate Shows(record: seq<string>, line: Line, iso: int -> string) {
    && |record| == 6
    && record[0] == iso(line.at) && record[1] == line.who && record[2] == line.model && record[3] == line.taskTitle
    && record[4] == Whole(line.ms)
    && (line.usd.Some? ==> record[5] == FixedSix(line.usd.value))
    && (record[5] == "" <==> line.usd.None?)
  }

  lemma RecordShows(line: Line, iso: int -> string)
    ensures Shows(RecordOf(line, iso), line, iso)
  {
    if line.usd.Some? { NumbersArePlain(0, line.usd.value); }
  }

  /**
   * Reading the spreadsheet gives back one record per line of the report, under the header, with
   * the very text of every field whatever it contains; a cost is empty exactly for an unpriced call.
   */
  lemma CsvReadsBack(report: Report, iso: int -> string)
    requires WritesPlainly(iso)
    ensures Parse(AsCsv(report, iso)) == Some([HEADER] + RecordsOf(report.lines, iso))
    ensures forall i :: 0 <= i < |report.lines| ==> Shows(RecordsOf(report.lines, iso)[i], report.lines[i], iso)
  {
    var header := Joined(HEADER, ',');
    PlainFieldsReadBack(HEADER);
    var rows, records := RowsOf(report.lines, iso), RecordsOf(report.lines, iso);
    forall i | 0 <= i < |rows| ensures ReadsAs(rows[i], records[i]) {
      RowReadsBack(report.lines[i], iso);
    }
    RowsParse([header] + rows, [HEADER] + records);
    forall i | 0 <= i < |report.lines| ensures Shows(records[i], report.lines[i], iso) {
      RecordShows(report.lines[i], iso);
    }
  }

  /** What is read back from the spreadsheet of a report is a record for every call the filter left. */
  lemma EveryKeptCallIsInTheSheet(input: Input, iso: int -> string) returns (lines: seq<Line>)
    requires WritesPlainly(iso)
    ensures Parse(AsCsv(ReportOf(input), iso)) == Some([HEADER] + RecordsOf(lines, iso))
    ensures multiset(lines) == multiset(LinesOf(input, Filtered(input, input.usage)))
    ensures |lines| == |Filtered(input, input.usage)|
    ensures forall i, j :: 0 <= i < j < |lines| ==> lines[i].at >= lines[j].at
  {
    lines := ReportOf(input).lines;
    CsvReadsBack(ReportOf(input), iso);
    LinesAreNewestFirst(input, 0);
    assert |multiset(lines)| == |multiset(LinesOf(input, Filtered(input, input.usage)))|;
  }
}
