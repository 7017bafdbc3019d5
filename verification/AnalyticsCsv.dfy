/**
  The CSV export (backend/app/analytics.py) against a reader written from section 2 of RFC 4180:
  CRLF ends a record, a field with a comma, a quote or a line break is quoted, quotes inside are
  doubled.
 */
module AnalyticsCsv {
  import opened Wrappers
  import opened Decimals

  /** A cell is a missing value or the `str` of a present one. */
  type Cell = Option<string>
  type Row = seq<Cell>

  const CRLF := "\r\n"

  // ---------------------------------------------------------------- the writer

  predicate Formula(text: string) {
    text != "" && text[0] in "=+-@"
  }

  /** What a cell says once a leading formula character has been disarmed. */
  function Neutralized(cell: Cell): string {
    match cell
    case None => ""
    case Some(text) => if Formula(text) then "'" + text else text
  }

  predicate Special(c: char) {
    c == ',' || c == ';' || c == '"' || c == '\n' || c == '\r'
  }

  predicate NeedsQuotes(text: string) {
    exists i :: 0 <= i < |text| && Special(text[i])
  }

  function Doubled(text: string): string {
    if text == "" then ""
    else (if text[0] == '"' then "\"\"" else [text[0]]) + Doubled(text[1..])
  }

  /** `_csv_field`. */
  function CsvField(cell: Cell): string {
    var text := Neutralized(cell);
    if NeedsQuotes(text) then "\"" + Doubled(text) + "\"" else text
  }

  function Join(parts: seq<string>, separator: string): string {
    if parts == [] then ""
    else if |parts| == 1 then parts[0]
    else parts[0] + separator + Join(parts[1..], separator)
  }

  function Fields(row: Row): seq<string> { seq(|row|, i requires 0 <= i < |row| => CsvField(row[i])) }

  /** `_csv_row` of a tuple. */
  function CsvRow(row: Row): string { Join(Fields(row), ",") }

  function Lines(rows: seq<Row>): seq<string> { seq(|rows|, i requires 0 <= i < |rows| => CsvRow(rows[i])) }

  /** The text `build_csv` returns: the rows joined with CRLF, and a final CRLF. */
  function Render(rows: seq<Row>): string { Join(Lines(rows), CRLF) + CRLF }

  function Texts(row: Row): seq<string> { seq(|row|, i requires 0 <= i < |row| => Neutralized(row[i])) }

  function AllTexts(rows: seq<Row>): seq<seq<string>> { seq(|rows|, i requires 0 <= i < |rows| => Texts(rows[i])) }

  // ---------------------------------------------------------------- the reader

  datatype Mode = FieldStart | Plain | Quoted | QuoteSeen | CrSeen

  datatype Reader =
    | Bad
    | Reader(rows: seq<seq<string>>, row: seq<string>, field: string, mode: Mode)
  {
    function EndField(): Reader
      requires Reader?
    {
      Reader(rows, row + [field], "", FieldStart)
    }

    function Step(c: char): Reader {
      match this
      case Bad => Bad
      case Reader(_, _, _, FieldStart) =>
        if c == '"' then this.(mode := Quoted)
        else if c == ',' then EndField()
        else if c == '\r' then this.(mode := CrSeen)
        else if c == '\n' then Bad
        else this.(field := field + [c], mode := Plain)
      case Reader(_, _, _, Plain) =>
        if c == ',' then EndField()
        else if c == '\r' then this.(mode := CrSeen)
        else if c == '"' || c == '\n' then Bad
        else this.(field := field + [c])
      case Reader(_, _, _, Quoted) =>
        if c == '"' then this.(mode := QuoteSeen) else this.(field := field + [c])
      case Reader(_, _, _, QuoteSeen) =>
        if c == '"' then this.(field := field + [c], mode := Quoted)
        else if c == ',' then EndField()
        else if c == '\r' then this.(mode := CrSeen)
        else Bad
      case Reader(_, _, _, CrSeen) =>
        if c == '\n' then Reader(rows + [row + [field]], [], "", FieldStart) else Bad
    }

    function Run(s: string): Reader
      decreases |s|
    {
      if s == "" then this else Step(s[0]).Run(s[1..])
    }

    /** The records read so far; the last one may lack its line break. */
    function Finish(): Option<seq<seq<string>>> {
      match this
      case Bad => None
      case Reader(_, _, _, mode) =>
        if mode == Quoted || mode == CrSeen then None
        else if mode == FieldStart && row == [] && field == "" then Some(rows)
        else Some(rows + [row + [field]])
    }
  }

  function Fresh(rows: seq<seq<string>>, row: seq<string>): Reader { Reader(rows, row, "", FieldStart) }

  function Parse(s: string): Option<seq<seq<string>>> { Fresh([], []).Run(s).Finish() }

  // ---------------------------------------------------------------- reading what was written

  lemma {:induction false} RunConcat(r: Reader, a: string, b: string)
    ensures r.Run(a + b) == r.Run(a).Run(b)
    decreases |a|
  {
    if a == "" {
      assert a + b == b;
    } else {
      assert (a + b)[1..] == a[1..] + b;
      RunConcat(r.Step(a[0]), a[1..], b);
    }
  }

  lemma {:induction false} RunPlain(r: Reader, text: string)
    requires r.Reader? && r.mode == Plain && !NeedsQuotes(text)
    ensures r.Run(text) == r.(field := r.field + text)
    decreases |text|
  {
    if text == "" {
      assert r.field + text == r.field;
    } else {
      assert !Special(text[0]);
      assert forall i :: 0 <= i < |text| - 1 ==> text[1..][i] == text[i + 1];
      RunPlain(r.Step(text[0]), text[1..]);
      assert (r.field + [text[0]]) + text[1..] == r.field + text;
    }
  }

  lemma {:induction false} RunQuoted(r: Reader, text: string)
    requires r.Reader? && r.mode == Quoted
    ensures r.Run(Doubled(text)) == r.(field := r.field + text)
    decreases |text|
  {
    if text == "" {
      assert r.field + text == r.field;
    } else {
      var head := if text[0] == '"' then "\"\"" else [text[0]];
      RunConcat(r, head, Doubled(text[1..]));
      var after := r.(field := r.field + [text[0]]);
      assert r.Run(head) == after by {
        if text[0] == '"' {
          assert head[1..] == "\"";
          assert r.Step('"').Run("\"") == r.Step('"').Step('"').Run("\""[1..]);
        }
      }
      RunQuoted(after, text[1..]);
      assert (r.field + [text[0]]) + text[1..] == r.field + text;
    }
  }

  /** A reader that has just consumed one whole field. */
  predicate AtFieldEnd(r: Reader, rows: seq<seq<string>>, row: seq<string>, field: string) {
    && r.Reader? && r.rows == rows && r.row == row && r.field == field
    && (r.mode == FieldStart || r.mode == Plain || r.mode == QuoteSeen)
  }

  /** One written field is read back as the text it stands for. */
  lemma RunField(rows: seq<seq<string>>, row: seq<string>, cell: Cell)
    ensures AtFieldEnd(Fresh(rows, row).Run(CsvField(cell)), rows, row, Neutralized(cell))
  {
    var r, text := Fresh(rows, row), Neutralized(cell);
    if NeedsQuotes(text) {
      RunConcat(r, "\"" + Doubled(text), "\"");
      RunConcat(r, "\"", Doubled(text));
      assert r.Run("\"") == r.Step('"').Run("\""[1..]);
      RunQuoted(r.(mode := Quoted), text);
      var q := r.(mode := Quoted, field := text);
      assert r.field + text == text;
      assert q.Run("\"") == q.Step('"').Run("\""[1..]);
    } else if text != "" {
      assert !Special(text[0]);
      assert forall i :: 0 <= i < |text| - 1 ==> text[1..][i] == text[i + 1];
      RunPlain(r.Step(text[0]), text[1..]);
      assert ("" + [text[0]]) + text[1..] == text;
    }
  }

  lemma CsvRowCons(cells: Row)
    requires |cells| > 1
    ensures CsvRow(cells) + CRLF == CsvField(cells[0]) + ("," + (CsvRow(cells[1..]) + CRLF))
  {
    assert Fields(cells)[1..] == Fields(cells[1..]);
  }

  lemma TextsCons(row: seq<string>, cells: Row)
    requires cells != []
    ensures row + Texts(cells) == (row + [Neutralized(cells[0])]) + Texts(cells[1..])
  {
  }

  lemma {:induction false} RunRow(rows: seq<seq<string>>, row: seq<string>, cells: Row)
    requires cells != []
    ensures Fresh(rows, row).Run(CsvRow(cells) + CRLF) == Fresh(rows + [row + Texts(cells)], [])
    decreases |cells|
  {
    var r, first := Fresh(rows, row), CsvField(cells[0]);
    RunField(rows, row, cells[0]);
    var end := r.Run(first);
    if |cells| == 1 {
      assert CsvRow(cells) == first;
      RunConcat(r, first, CRLF);
      TextsCons(row, cells);
      assert row + Texts(cells) == row + [Neutralized(cells[0])];
    } else {
      var rest := CsvRow(cells[1..]) + CRLF;
      CsvRowCons(cells);
      RunConcat(r, first, "," + rest);
      RunRow(rows, row + [Neutralized(cells[0])], cells[1..]);
      TextsCons(row, cells);
    }
  }

  ghost predicate NoEmptyRow(rows: seq<Row>) {
    forall i :: 0 <= i < |rows| ==> rows[i] != []
  }

  lemma {:induction false} RunRows(done: seq<seq<string>>, rows: seq<Row>)
    requires rows != [] && NoEmptyRow(rows)
    ensures Fresh(done, []).Run(Render(rows)) == Fresh(done + AllTexts(rows), [])
    decreases |rows|
  {
    var line := CsvRow(rows[0]) + CRLF;
    RunRow(done, [], rows[0]);
    assert [] + Texts(rows[0]) == Texts(rows[0]);
    if |rows| == 1 {
      assert Render(rows) == line;
      assert AllTexts(rows) == [Texts(rows[0])];
    } else {
      assert Lines(rows)[1..] == Lines(rows[1..]);
      assert Render(rows) == line + Render(rows[1..]);
      RunConcat(Fresh(done, []), line, Render(rows[1..]));
      RunRows(done + [Texts(rows[0])], rows[1..]);
      assert (done + [Texts(rows[0])]) + AllTexts(rows[1..]) == done + AllTexts(rows);
    }
  }

  /**
    The round trip: for all cell contents, an RFC 4180 reader recovers every row and every cell of
    the export, up to the apostrophe put before a leading formula character.
   */
  lemma ParseOfRender(rows: seq<Row>)
    requires rows != [] && NoEmptyRow(rows)
    ensures Parse(Render(rows)) == Some(AllTexts(rows))
  {
    RunRows([], rows);
    assert [] + AllTexts(rows) == AllTexts(rows);
  }

  /** Two exports with the same text have the same shape and the same disarmed cells. */
  lemma RenderIsInjective(a: seq<Row>, b: seq<Row>)
    requires a != [] && NoEmptyRow(a) && b != [] && NoEmptyRow(b)
    requires Render(a) == Render(b)
    ensures AllTexts(a) == AllTexts(b)
  {
    ParseOfRender(a);
    ParseOfRender(b);
  }

  /** No cell read back from an export starts a spreadsheet formula. */
  lemma NoFormulaSurvives(rows: seq<Row>, i: nat, j: nat)
    requires rows != [] && NoEmptyRow(rows) && i < |rows| && j < |rows[i]|
    ensures Parse(Render(rows)).Some? && |Parse(Render(rows)).value| == |rows|
    ensures |Parse(Render(rows)).value[i]| == |rows[i]|
    ensures var cell := Parse(Render(rows)).value[i][j]; cell != "" ==> cell[0] !in {'=', '+', '-', '@'}
  {
    ParseOfRender(rows);
    assert AllTexts(rows)[i] == Texts(rows[i]);
    assert Texts(rows[i])[j] == Neutralized(rows[i][j]);
  }

  /**
    What the disarming loses, exactly: a missing cell and an empty one, and a formula and the same
    text typed with its apostrophe, become the same.
   */
  lemma NeutralizedCollisions(a: Cell, b: Cell)
    ensures Neutralized(a) == Neutralized(b) <==>
      || a == b
      || (a in {None, Some("")} && b in {None, Some("")})
      || (a.Some? && Formula(a.value) && b == Some("'" + a.value))
      || (b.Some? && Formula(b.value) && a == Some("'" + b.value))
  {
    if a.Some? && b.Some? && Formula(a.value) && Formula(b.value) {
      assert ("'" + a.value)[1..] == a.value;
      assert ("'" + b.value)[1..] == b.value;
    }
  }

  /** A field is quoted exactly when its text holds a comma, a semicolon, a quote or a line break. */
  lemma QuotedIff(cell: Cell)
    ensures CsvField(cell) != "" && CsvField(cell)[0] == '"' <==>
              exists c :: c in Neutralized(cell) && c in {',', ';', '"', '\n', '\r'}
  {
    var text := Neutralized(cell);
    if NeedsQuotes(text) {
      var i :| 0 <= i < |text| && Special(text[i]);
      assert text[i] in text;
    } else {
      assert forall i :: 0 <= i < |text| ==> !Special(text[i]);
    }
  }

  // ---------------------------------------------------------------- the report

  datatype Kpis = Kpis(
    createdCandidates: nat, processedCandidates: nat, calls: nat, reached: nat, interviewsScheduled: nat,
    interviewsDone: nat, offers: nat, hired: nat, dismissed: nat, terminated: nat)

  /** The rate is its text with two decimals, missing when nothing was counted. */
  datatype Conversion = Conversion(fromStage: string, toStage: string, numerator: nat, denominator: nat, rate: Cell)

  datatype Stage = Stage(stage: string, reached: nat)

  datatype SourceStats = SourceStats(source: Cell, created: nat, hired: nat, dismissed: nat, terminated: nat)

  datatype HrStats = HrStats(hrId: Cell, username: Cell, created: nat, processed: nat, hired: nat, dismissed: nat, terminated: nat)

  datatype Report = Report(
    periodFrom: string, periodTo: string, timezone: string, hrId: Cell, source: Cell, kpis: Kpis,
    conversions: seq<Conversion>, funnel: seq<Stage>, bySource: seq<SourceStats>, byHr: seq<HrStats>)

  /** An empty line is a record with one empty field. */
  const BLANK: Row := [None]

  function Line(key: string, value: Cell): Row { [Some(key), value] }

  function Number(n: nat): Cell { Some(Print(n)) }

  function TopRows(r: Report): seq<Row> {
    [ [Some("HR Manager Analytics Report")],
      Line("period_from", Some(r.periodFrom)), Line("period_to", Some(r.periodTo)),
      Line("timezone", Some(r.timezone)), Line("scope", Some("team")),
      Line("hr_id", r.hrId), Line("source", r.source) ]
  }

  function KpiRows(k: Kpis): seq<Row> {
    [ Line("created_candidates", Number(k.createdCandidates)),
      Line("processed_candidates", Number(k.processedCandidates)),
      Line("calls", Number(k.calls)), Line("reached", Number(k.reached)),
      Line("interviews_scheduled", Number(k.interviewsScheduled)),
      Line("interviews_done", Number(k.interviewsDone)),
      Line("offers", Number(k.offers)), Line("hired", Number(k.hired)),
      Line("dismissed", Number(k.dismissed)), Line("terminated", Number(k.terminated)) ]
  }

  function ConversionRow(c: Conversion): Row {
    [Some(c.fromStage), Some(c.toStage), Number(c.numerator), Number(c.denominator), c.rate]
  }

  function StageRow(s: Stage): Row { [Some(s.stage), Number(s.reached)] }

  function SourceRow(s: SourceStats): Row {
    [s.source, Number(s.created), Number(s.hired), Number(s.dismissed), Number(s.terminated)]
  }

  function HrRow(h: HrStats): Row {
    [h.hrId, h.username, Number(h.created), Number(h.processed), Number(h.hired), Number(h.dismissed), Number(h.terminated)]
  }

  function Table<T>(items: seq<T>, row: T -> Row): seq<Row> { seq(|items|, i requires 0 <= i < |items| => row(items[i])) }

  function Columns(names: seq<string>): Row { seq(|names|, i requires 0 <= i < |names| => Some(names[i])) }

  /** A section: an empty line, its name, its column names and its rows. */
  function Section(name: string, columns: seq<string>, rows: seq<Row>): seq<Row> {
    [BLANK, Line("section", Some(name)), Columns(columns)] + rows
  }

  const KPI_COLUMNS := ["metric", "value"]
  const CONVERSION_COLUMNS := ["from_stage", "to_stage", "numerator", "denominator", "rate"]
  const FUNNEL_COLUMNS := ["stage", "reached"]
  const SOURCE_COLUMNS := ["source", "created", "hired", "dismissed", "terminated"]
  const HR_COLUMNS := ["hr_id", "username", "created", "processed", "hired", "dismissed", "terminated"]

  // The rows of the export up to each of its sections.

  function UpToKpi(r: Report): seq<Row> { TopRows(r) + Section("kpi", KPI_COLUMNS, KpiRows(r.kpis)) }

  function UpToConversions(r: Report): seq<Row> {
    UpToKpi(r) + Section("conversions", CONVERSION_COLUMNS, Table(r.conversions, ConversionRow))
  }

  function UpToFunnel(r: Report): seq<Row> {
    UpToConversions(r) + Section("funnel", FUNNEL_COLUMNS, Table(r.funnel, StageRow))
  }

  function UpToSources(r: Report): seq<Row> {
    UpToFunnel(r) + Section("by_source", SOURCE_COLUMNS, Table(r.bySource, SourceRow))
  }

  /** The rows of the export, in the order its documentation fixes. */
  function Layout(r: Report): seq<Row> {
    UpToSources(r) + Section("by_hr", HR_COLUMNS, Table(r.byHr, HrRow))
  }

  lemma SectionHasRows(before: seq<Row>, name: string, columns: seq<string>, rows: seq<Row>)
    requires NoEmptyRow(before) && NoEmptyRow(rows) && columns != []
    ensures NoEmptyRow(before + Section(name, columns, rows))
  {
  }

  lemma LayoutHasRows(r: Report)
    ensures Layout(r) != [] && NoEmptyRow(Layout(r))
  {
    SectionHasRows(TopRows(r), "kpi", KPI_COLUMNS, KpiRows(r.kpis));
    SectionHasRows(UpToKpi(r), "conversions", CONVERSION_COLUMNS, Table(r.conversions, ConversionRow));
    SectionHasRows(UpToConversions(r), "funnel", FUNNEL_COLUMNS, Table(r.funnel, StageRow));
    SectionHasRows(UpToFunnel(r), "by_source", SOURCE_COLUMNS, Table(r.bySource, SourceRow));
    SectionHasRows(UpToSources(r), "by_hr", HR_COLUMNS, Table(r.byHr, HrRow));
  }

  /** Appends one line per row. */
  method AppendRows(lines: seq<string>, rows: seq<Row>) returns (all: seq<string>)
    ensures all == lines + Lines(rows)
  {
    all := lines;
    for i := 0 to |rows|
      invariant all == lines + Lines(rows)[..i]
    {
      all := all + [CsvRow(rows[i])];
      assert Lines(rows)[..i + 1] == Lines(rows)[..i] + [CsvRow(rows[i])];
    }
  }

  /** A stretch of `build_csv`: the heading of a section and the loop over its rows. */
  method AppendSection(lines: seq<string>, name: string, columns: seq<string>, rows: seq<Row>, ghost before: seq<Row>)
    returns (all: seq<string>)
    requires lines == Lines(before)
    ensures all == Lines(before + Section(name, columns, rows))
  {
    var heading := [BLANK, Line("section", Some(name)), Columns(columns)];
    all := AppendRows(lines, heading);
    all := AppendRows(all, rows);
    assert (before + heading) + rows == before + Section(name, columns, rows);
  }

  /** `build_csv`: reading the export back yields every line of the report, cell by cell. */
  method BuildCsv(r: Report) returns (text: string)
    ensures text == Render(Layout(r)) && Parse(text) == Some(AllTexts(Layout(r)))
  {
    var lines := AppendRows([], TopRows(r));
    lines := AppendSection(lines, "kpi", KPI_COLUMNS, KpiRows(r.kpis), TopRows(r));
    lines := AppendSection(lines, "conversions", CONVERSION_COLUMNS, Table(r.conversions, ConversionRow), UpToKpi(r));
    lines := AppendSection(lines, "funnel", FUNNEL_COLUMNS, Table(r.funnel, StageRow), UpToConversions(r));
    lines := AppendSection(lines, "by_source", SOURCE_COLUMNS, Table(r.bySource, SourceRow), UpToFunnel(r));
    lines := AppendSection(lines, "by_hr", HR_COLUMNS, Table(r.byHr, HrRow), UpToSources(r));
    LayoutHasRows(r);
    ParseOfRender(Layout(r));
    text := Join(lines, CRLF) + CRLF;
  }

  // ---------------------------------------------------------------- what a reader finds where

  lemma NumberReads(n: nat)
    ensures Neutralized(Number(n)) == Print(n)
  {
    ValueOfPrint(n);
    assert IsDigit(Print(n)[0]);
  }

  lemma NameReads(name: string)
    requires name != "" && ('a' <= name[0] <= 'z' || 'A' <= name[0] <= 'Z')
    ensures Neutralized(Some(name)) == name
  {
  }

  ghost predicate Named(names: seq<string>) {
    forall i :: 0 <= i < |names| ==> names[i] != "" && 'a' <= names[i][0] <= 'z'
  }

  /** How a section begins: an empty line, its name, and its columns. */
  ghost function ReadHeading(name: string, columns: seq<string>): seq<seq<string>> { [[""], ["section", name], columns] }

  lemma SectionReads(before: seq<Row>, name: string, columns: seq<string>, rows: seq<Row>)
    requires Named([name]) && Named(columns)
    ensures AllTexts(before + Section(name, columns, rows)) == AllTexts(before) + ReadHeading(name, columns) + AllTexts(rows)
  {
    NameReads("section");
    assert [name][0] == name;
    NameReads(name);
    forall i | 0 <= i < |columns| ensures Texts(Columns(columns))[i] == columns[i] {
      NameReads(columns[i]);
    }
    assert Texts(BLANK) == [""] && Texts(Line("section", Some(name))) == ["section", name] && Texts(Columns(columns)) == columns;
  }

  /** The header and the KPIs as they are read. */
  ghost function ReadTop(r: Report): seq<seq<string>> {
    [["HR Manager Analytics Report"], ["period_from", Neutralized(Some(r.periodFrom))],
     ["period_to", Neutralized(Some(r.periodTo))], ["timezone", Neutralized(Some(r.timezone))], ["scope", "team"],
     ["hr_id", Neutralized(r.hrId)], ["source", Neutralized(r.source)]]
  }

  ghost function ReadKpis(k: Kpis): seq<seq<string>> {
    [["created_candidates", Print(k.createdCandidates)], ["processed_candidates", Print(k.processedCandidates)],
     ["calls", Print(k.calls)], ["reached", Print(k.reached)], ["interviews_scheduled", Print(k.interviewsScheduled)],
     ["interviews_done", Print(k.interviewsDone)], ["offers", Print(k.offers)], ["hired", Print(k.hired)],
     ["dismissed", Print(k.dismissed)], ["terminated", Print(k.terminated)]]
  }

  lemma TopReads(r: Report)
    ensures AllTexts(TopRows(r)) == ReadTop(r)
  {
    NameReads("HR Manager Analytics Report");
    assert Texts([Some("HR Manager Analytics Report")]) == ["HR Manager Analytics Report"];
    LineReads("period_from", Some(r.periodFrom));
    LineReads("period_to", Some(r.periodTo));
    LineReads("timezone", Some(r.timezone));
    LineReads("scope", Some("team"));
    LineReads("hr_id", r.hrId);
    LineReads("source", r.source);
  }

  lemma LineReads(key: string, value: Cell)
    requires key != "" && 'a' <= key[0] <= 'z'
    ensures Texts(Line(key, value)) == [key, Neutralized(value)]
  {
  }

  lemma CountReads(key: string, n: nat)
    requires key != "" && 'a' <= key[0] <= 'z'
    ensures Texts(Line(key, Number(n))) == [key, Print(n)]
  {
    LineReads(key, Number(n));
    NumberReads(n);
  }

  lemma KpisRead(k: Kpis)
    ensures AllTexts(KpiRows(k)) == ReadKpis(k)
  {
    CountReads("created_candidates", k.createdCandidates);
    CountReads("processed_candidates", k.processedCandidates);
    CountReads("calls", k.calls);
    CountReads("reached", k.reached);
    CountReads("interviews_scheduled", k.interviewsScheduled);
    CountReads("interviews_done", k.interviewsDone);
    CountReads("offers", k.offers);
    CountReads("hired", k.hired);
    CountReads("dismissed", k.dismissed);
    CountReads("terminated", k.terminated);
  }

  /** A row as it is read: under each of the columns of its section. */
  ghost function ReadConversion(c: Conversion): seq<string> {
    [Neutralized(Some(c.fromStage)), Neutralized(Some(c.toStage)), Print(c.numerator), Print(c.denominator), Neutralized(c.rate)]
  }

  ghost function ReadStage(s: Stage): seq<string> { [Neutralized(Some(s.stage)), Print(s.reached)] }

  ghost function ReadSource(s: SourceStats): seq<string> {
    [Neutralized(s.source), Print(s.created), Print(s.hired), Print(s.dismissed), Print(s.terminated)]
  }

  ghost function ReadHr(h: HrStats): seq<string> {
    [Neutralized(h.hrId), Neutralized(h.username), Print(h.created), Print(h.processed), Print(h.hired), Print(h.dismissed),
     Print(h.terminated)]
  }

  ghost function ReadAll<T>(items: seq<T>, read: T -> seq<string>): seq<seq<string>> {
    seq(|items|, i requires 0 <= i < |items| => read(items[i]))
  }

  lemma TablesRead(r: Report)
    ensures AllTexts(Table(r.conversions, ConversionRow)) == ReadAll(r.conversions, ReadConversion)
    ensures AllTexts(Table(r.funnel, StageRow)) == ReadAll(r.funnel, ReadStage)
    ensures AllTexts(Table(r.bySource, SourceRow)) == ReadAll(r.bySource, ReadSource)
    ensures AllTexts(Table(r.byHr, HrRow)) == ReadAll(r.byHr, ReadHr)
  {
    forall i | 0 <= i < |r.conversions| ensures Texts(ConversionRow(r.conversions[i])) == ReadConversion(r.conversions[i]) {
      NumberReads(r.conversions[i].numerator);
      NumberReads(r.conversions[i].denominator);
    }
    forall i | 0 <= i < |r.funnel| ensures Texts(StageRow(r.funnel[i])) == ReadStage(r.funnel[i]) {
      NumberReads(r.funnel[i].reached);
    }
    forall s: SourceStats ensures Texts(SourceRow(s)) == ReadSource(s) {
      NumberReads(s.created);
      NumberReads(s.hired);
      NumberReads(s.dismissed);
      NumberReads(s.terminated);
    }
    forall h: HrStats ensures Texts(HrRow(h)) == ReadHr(h) {
      NumberReads(h.created);
      NumberReads(h.processed);
      NumberReads(h.hired);
      NumberReads(h.dismissed);
      NumberReads(h.terminated);
    }
  }

  lemma FirstHalfReads(r: Report)
    ensures AllTexts(UpToConversions(r)) ==
      ReadTop(r) + ReadHeading("kpi", ["metric", "value"]) + ReadKpis(r.kpis)
      + ReadHeading("conversions", ["from_stage", "to_stage", "numerator", "denominator", "rate"])
      + ReadAll(r.conversions, ReadConversion)
  {
    TopReads(r);
    KpisRead(r.kpis);
    TablesRead(r);
    SectionReads(TopRows(r), "kpi", KPI_COLUMNS, KpiRows(r.kpis));
    SectionReads(UpToKpi(r), "conversions", CONVERSION_COLUMNS, Table(r.conversions, ConversionRow));
  }

  lemma SecondHalfReads(r: Report)
    ensures AllTexts(Layout(r)) == AllTexts(UpToConversions(r))
      + ReadHeading("funnel", ["stage", "reached"]) + ReadAll(r.funnel, ReadStage)
      + ReadHeading("by_source", ["source", "created", "hired", "dismissed", "terminated"]) + ReadAll(r.bySource, ReadSource)
      + ReadHeading("by_hr", ["hr_id", "username", "created", "processed", "hired", "dismissed", "terminated"])
      + ReadAll(r.byHr, ReadHr)
  {
    TablesRead(r);
    SectionReads(UpToConversions(r), "funnel", FUNNEL_COLUMNS, Table(r.funnel, StageRow));
    SectionReads(UpToFunnel(r), "by_source", SOURCE_COLUMNS, Table(r.bySource, SourceRow));
    SectionReads(UpToSources(r), "by_hr", HR_COLUMNS, Table(r.byHr, HrRow));
  }

  /**
    What an RFC 4180 reader finds in the export, row by row: the header, then each section under its
    name with its columns, every number beside its own label or under its own column.
   */
  lemma ExportReads(r: Report)
    ensures Parse(Render(Layout(r))) == Some(
      ReadTop(r) + ReadHeading("kpi", ["metric", "value"]) + ReadKpis(r.kpis)
      + ReadHeading("conversions", ["from_stage", "to_stage", "numerator", "denominator", "rate"])
      + ReadAll(r.conversions, ReadConversion)
      + ReadHeading("funnel", ["stage", "reached"]) + ReadAll(r.funnel, ReadStage)
      + ReadHeading("by_source", ["source", "created", "hired", "dismissed", "terminated"]) + ReadAll(r.bySource, ReadSource)
      + ReadHeading("by_hr", ["hr_id", "username", "created", "processed", "hired", "dismissed", "terminated"])
      + ReadAll(r.byHr, ReadHr))
  {
    LayoutHasRows(r);
    ParseOfRender(Layout(r));
    FirstHalfReads(r);
    SecondHalfReads(r);
  }

  // ---------------------------------------------------------------- what the export shows

  /** No row of a section looks like the empty line before it. */
  ghost predicate Wide(rows: seq<seq<string>>) { forall i :: 0 <= i < |rows| ==> |rows[i]| >= 2 }

  /** The last empty line is where the last section begins. */
  lemma LastBlank(x: seq<seq<string>>, a: seq<seq<string>>, y: seq<seq<string>>, b: seq<seq<string>>, blank: seq<string>)
    requires |blank| == 1 && Wide(a) && Wide(b) && x + ([blank] + a) == y + ([blank] + b)
    ensures x == y && a == b
  {
    NotEarlier(x, a, y, b, blank);
    NotEarlier(y, b, x, a, blank);
    var all := x + ([blank] + a);
    assert x == all[..|x|] && y == all[..|y|];
    assert a == all[|x| + 1..] && b == all[|y| + 1..];
  }

  lemma NotEarlier(x: seq<seq<string>>, a: seq<seq<string>>, y: seq<seq<string>>, b: seq<seq<string>>, blank: seq<string>)
    requires |blank| == 1 && Wide(a) && x + ([blank] + a) == y + ([blank] + b)
    ensures |y| <= |x|
  {
    assert forall k :: |x| < k < |x| + 1 + |a| ==> (x + ([blank] + a))[k] == a[k - |x| - 1];
    assert (y + ([blank] + b))[|y|] == blank;
  }

  ghost predicate WideRows(rows: seq<Row>) { forall i :: 0 <= i < |rows| ==> |rows[i]| >= 2 }

  lemma SectionTexts(x: seq<Row>, rows: seq<Row>, name: string, columns: seq<string>)
    requires WideRows(rows) && |columns| >= 2
    ensures var heading := [Texts(Line("section", Some(name))), Texts(Columns(columns))];
            && Wide(heading + AllTexts(rows))
            && AllTexts(x + Section(name, columns, rows)) == AllTexts(x) + ([Texts(BLANK)] + (heading + AllTexts(rows)))
  {
    var heading := [Texts(Line("section", Some(name))), Texts(Columns(columns))];
    assert AllTexts([BLANK, Line("section", Some(name)), Columns(columns)]) == [Texts(BLANK)] + heading;
    assert ([Texts(BLANK)] + heading) + AllTexts(rows) == [Texts(BLANK)] + (heading + AllTexts(rows));
  }

  /** Equal exports have equal last sections, and are equal up to there. */
  lemma PeelSection(x: seq<Row>, a: seq<Row>, y: seq<Row>, b: seq<Row>, name: string, columns: seq<string>)
    requires WideRows(a) && WideRows(b) && |columns| >= 2
    requires AllTexts(x + Section(name, columns, a)) == AllTexts(y + Section(name, columns, b))
    ensures AllTexts(x) == AllTexts(y) && AllTexts(a) == AllTexts(b)
  {
    var heading := [Texts(Line("section", Some(name))), Texts(Columns(columns))];
    SectionTexts(x, a, name, columns);
    SectionTexts(y, b, name, columns);
    LastBlank(AllTexts(x), heading + AllTexts(a), AllTexts(y), heading + AllTexts(b), Texts(BLANK));
    assert AllTexts(a) == (heading + AllTexts(a))[2..] && AllTexts(b) == (heading + AllTexts(b))[2..];
  }

  lemma SectionsAreWide(r: Report)
    ensures WideRows(KpiRows(r.kpis)) && WideRows(Table(r.conversions, ConversionRow)) && WideRows(Table(r.funnel, StageRow))
    ensures WideRows(Table(r.bySource, SourceRow)) && WideRows(Table(r.byHr, HrRow))
  {
    assert WideRows(Table(r.conversions, ConversionRow)) by {
      assert forall i :: 0 <= i < |r.conversions| ==> Table(r.conversions, ConversionRow)[i] == ConversionRow(r.conversions[i]);
    }
    assert WideRows(Table(r.funnel, StageRow)) by {
      assert forall i :: 0 <= i < |r.funnel| ==> Table(r.funnel, StageRow)[i] == StageRow(r.funnel[i]);
    }
    assert WideRows(Table(r.bySource, SourceRow)) by {
      assert forall i :: 0 <= i < |r.bySource| ==> Table(r.bySource, SourceRow)[i] == SourceRow(r.bySource[i]);
    }
    assert WideRows(Table(r.byHr, HrRow)) by {
      assert forall i :: 0 <= i < |r.byHr| ==> Table(r.byHr, HrRow)[i] == HrRow(r.byHr[i]);
    }
  }

  /** Equal texts come from reports whose sections are equal, cell by cell, once disarmed. */
  lemma SectionsAreShown(a: Report, b: Report)
    requires Render(Layout(a)) == Render(Layout(b))
    ensures AllTexts(TopRows(a)) == AllTexts(TopRows(b)) && AllTexts(KpiRows(a.kpis)) == AllTexts(KpiRows(b.kpis))
    ensures AllTexts(Table(a.conversions, ConversionRow)) == AllTexts(Table(b.conversions, ConversionRow))
    ensures AllTexts(Table(a.funnel, StageRow)) == AllTexts(Table(b.funnel, StageRow))
    ensures AllTexts(Table(a.bySource, SourceRow)) == AllTexts(Table(b.bySource, SourceRow))
    ensures AllTexts(Table(a.byHr, HrRow)) == AllTexts(Table(b.byHr, HrRow))
  {
    LayoutHasRows(a);
    LayoutHasRows(b);
    RenderIsInjective(Layout(a), Layout(b));
    SectionsAreWide(a);
    SectionsAreWide(b);
    PeelSection(UpToSources(a), Table(a.byHr, HrRow), UpToSources(b), Table(b.byHr, HrRow), "by_hr", HR_COLUMNS);
    PeelSection(UpToFunnel(a), Table(a.bySource, SourceRow), UpToFunnel(b), Table(b.bySource, SourceRow), "by_source", SOURCE_COLUMNS);
    PeelSection(UpToConversions(a), Table(a.funnel, StageRow), UpToConversions(b), Table(b.funnel, StageRow), "funnel", FUNNEL_COLUMNS);
    PeelSection(UpToKpi(a), Table(a.conversions, ConversionRow), UpToKpi(b), Table(b.conversions, ConversionRow),
                "conversions", CONVERSION_COLUMNS);
    PeelSection(TopRows(a), KpiRows(a.kpis), TopRows(b), KpiRows(b.kpis), "kpi", KPI_COLUMNS);
  }

  lemma CellIsShown(row: Row, other: Row, j: nat)
    requires Texts(row) == Texts(other) && j < |row|
    ensures j < |other| && Neutralized(row[j]) == Neutralized(other[j])
  {
    assert |Texts(row)| == |Texts(other)|;
    assert Texts(row)[j] == Texts(other)[j];
  }

  /** A number is shown as it is, and read back as it is. */
  lemma CountIsShown(row: Row, other: Row, j: nat, m: nat, n: nat)
    requires Texts(row) == Texts(other) && j < |row| && j < |other| && row[j] == Number(m) && other[j] == Number(n)
    ensures m == n
  {
    CellIsShown(row, other, j);
    ValueOfPrint(m);
    ValueOfPrint(n);
    assert IsDigit(Print(m)[0]) && IsDigit(Print(n)[0]);
  }

  lemma TableIsShown<T>(a: seq<T>, b: seq<T>, row: T -> Row, i: nat)
    requires AllTexts(Table(a, row)) == AllTexts(Table(b, row)) && i < |a|
    ensures i < |b| && Texts(row(a[i])) == Texts(row(b[i]))
  {
    assert |AllTexts(Table(a, row))| == |AllTexts(Table(b, row))|;
    assert AllTexts(Table(a, row))[i] == AllTexts(Table(b, row))[i];
  }

  lemma KpiIsShown(a: Kpis, b: Kpis, i: nat, m: nat, n: nat)
    requires AllTexts(KpiRows(a)) == AllTexts(KpiRows(b)) && i < 10
    requires KpiRows(a)[i][1] == Number(m) && KpiRows(b)[i][1] == Number(n)
    ensures m == n
  {
    assert AllTexts(KpiRows(a))[i] == AllTexts(KpiRows(b))[i];
    CountIsShown(KpiRows(a)[i], KpiRows(b)[i], 1, m, n);
  }

  /** What two tables must share: names as they are shown, and all numbers. */
  ghost predicate SameConversion(x: Conversion, y: Conversion) {
    x == y.(fromStage := x.fromStage, toStage := x.toStage, rate := x.rate)
    && Neutralized(Some(x.fromStage)) == Neutralized(Some(y.fromStage))
    && Neutralized(Some(x.toStage)) == Neutralized(Some(y.toStage)) && Neutralized(x.rate) == Neutralized(y.rate)
  }

  ghost predicate SameStage(x: Stage, y: Stage) {
    x == y.(stage := x.stage) && Neutralized(Some(x.stage)) == Neutralized(Some(y.stage))
  }

  ghost predicate SameSource(x: SourceStats, y: SourceStats) {
    x == y.(source := x.source) && Neutralized(x.source) == Neutralized(y.source)
  }

  ghost predicate SameHr(x: HrStats, y: HrStats) {
    x == y.(hrId := x.hrId, username := x.username)
    && Neutralized(x.hrId) == Neutralized(y.hrId) && Neutralized(x.username) == Neutralized(y.username)
  }

  lemma KpisAreShown(a: Kpis, b: Kpis)
    requires AllTexts(KpiRows(a)) == AllTexts(KpiRows(b))
    ensures a == b
  {
    KpiIsShown(a, b, 0, a.createdCandidates, b.createdCandidates);
    KpiIsShown(a, b, 1, a.processedCandidates, b.processedCandidates);
    KpiIsShown(a, b, 2, a.calls, b.calls);
    KpiIsShown(a, b, 3, a.reached, b.reached);
    KpiIsShown(a, b, 4, a.interviewsScheduled, b.interviewsScheduled);
    KpiIsShown(a, b, 5, a.interviewsDone, b.interviewsDone);
    KpiIsShown(a, b, 6, a.offers, b.offers);
    KpiIsShown(a, b, 7, a.hired, b.hired);
    KpiIsShown(a, b, 8, a.dismissed, b.dismissed);
    KpiIsShown(a, b, 9, a.terminated, b.terminated);
  }

  lemma ConversionIsShown(x: Conversion, y: Conversion)
    requires Texts(ConversionRow(x)) == Texts(ConversionRow(y))
    ensures SameConversion(x, y)
  {
    CellIsShown(ConversionRow(x), ConversionRow(y), 0);
    CellIsShown(ConversionRow(x), ConversionRow(y), 1);
    CountIsShown(ConversionRow(x), ConversionRow(y), 2, x.numerator, y.numerator);
    CountIsShown(ConversionRow(x), ConversionRow(y), 3, x.denominator, y.denominator);
    CellIsShown(ConversionRow(x), ConversionRow(y), 4);
  }

  lemma SourceIsShown(x: SourceStats, y: SourceStats)
    requires Texts(SourceRow(x)) == Texts(SourceRow(y))
    ensures SameSource(x, y)
  {
    CellIsShown(SourceRow(x), SourceRow(y), 0);
    CountIsShown(SourceRow(x), SourceRow(y), 1, x.created, y.created);
    CountIsShown(SourceRow(x), SourceRow(y), 2, x.hired, y.hired);
    CountIsShown(SourceRow(x), SourceRow(y), 3, x.dismissed, y.dismissed);
    CountIsShown(SourceRow(x), SourceRow(y), 4, x.terminated, y.terminated);
  }

  lemma HrIsShown(x: HrStats, y: HrStats)
    requires Texts(HrRow(x)) == Texts(HrRow(y))
    ensures SameHr(x, y)
  {
    CellIsShown(HrRow(x), HrRow(y), 0);
    CellIsShown(HrRow(x), HrRow(y), 1);
    CountIsShown(HrRow(x), HrRow(y), 2, x.created, y.created);
    CountIsShown(HrRow(x), HrRow(y), 3, x.processed, y.processed);
    CountIsShown(HrRow(x), HrRow(y), 4, x.hired, y.hired);
    CountIsShown(HrRow(x), HrRow(y), 5, x.dismissed, y.dismissed);
    CountIsShown(HrRow(x), HrRow(y), 6, x.terminated, y.terminated);
  }

  /**
    The export hides nothing: reports with the same text have the same numbers in every section, in
    the same order, and names that are shown alike.
   */
  lemma ExportDeterminesReport(a: Report, b: Report)
    requires Render(Layout(a)) == Render(Layout(b))
    ensures a.kpis == b.kpis
    ensures |a.conversions| == |b.conversions| && forall i :: 0 <= i < |a.conversions| ==> SameConversion(a.conversions[i], b.conversions[i])
    ensures |a.funnel| == |b.funnel| && forall i :: 0 <= i < |a.funnel| ==> SameStage(a.funnel[i], b.funnel[i])
    ensures |a.bySource| == |b.bySource| && forall i :: 0 <= i < |a.bySource| ==> SameSource(a.bySource[i], b.bySource[i])
    ensures |a.byHr| == |b.byHr| && forall i :: 0 <= i < |a.byHr| ==> SameHr(a.byHr[i], b.byHr[i])
  {
    SectionsAreShown(a, b);
    KpisAreShown(a.kpis, b.kpis);
    forall i | 0 <= i < |a.conversions| ensures SameConversion(a.conversions[i], b.conversions[i]) {
      TableIsShown(a.conversions, b.conversions, ConversionRow, i);
      ConversionIsShown(a.conversions[i], b.conversions[i]);
    }
    forall i | 0 <= i < |a.funnel| ensures SameStage(a.funnel[i], b.funnel[i]) {
      TableIsShown(a.funnel, b.funnel, StageRow, i);
      CellIsShown(StageRow(a.funnel[i]), StageRow(b.funnel[i]), 0);
      CountIsShown(StageRow(a.funnel[i]), StageRow(b.funnel[i]), 1, a.funnel[i].reached, b.funnel[i].reached);
    }
    forall i | 0 <= i < |a.bySource| ensures SameSource(a.bySource[i], b.bySource[i]) {
      TableIsShown(a.bySource, b.bySource, SourceRow, i);
      SourceIsShown(a.bySource[i], b.bySource[i]);
    }
    forall i | 0 <= i < |a.byHr| ensures SameHr(a.byHr[i], b.byHr[i]) {
      TableIsShown(a.byHr, b.byHr, HrRow, i);
      HrIsShown(a.byHr[i], b.byHr[i]);
    }
  }
}
