/** generateCSV: a header row, then one row per warning, cells joined with
    ',' and rows with '\n', with no quoting or escaping. */
module Csv {
  import opened Text
  import opened Records

  /** The header row as the source writes it: a warning-number title first,
      then the titles of the seven exported fields. */
  const CsvHeaders: seq<string> := [
    "رقم الإنذار", "اسم الموظف", "البريد الإلكتروني", "نوع الإنذار",
    "درجة الخطورة", "سبب الإنذار", "التاريخ", "الشركة"
  ]

  /** The fields each data row carries, in column order. */
  const CsvFields: seq<Field> := [
    EmployeeName, EmployeeEmail, WarningType, Severity, WarningReason, WarningDate, Company
  ]

  /** The header title naming an exported field. */
  function ColumnTitle(f: Field): string {
    match f
    case EmployeeName => "اسم الموظف"
    case EmployeeEmail => "البريد الإلكتروني"
    case WarningType => "نوع الإنذار"
    case Severity => "درجة الخطورة"
    case WarningReason => "سبب الإنذار"
    case WarningDate => "التاريخ"
    case Company => "الشركة"
    case _ => ""
  }

  /** A cell as Array.prototype.join writes it: a missing property is the
      empty string. */
  function CellValue(w: Warning, f: Field): string {
    if f in w.fields then w.fields[f] else ""
  }

  /** The cells of one warning's row. */
  function CsvRow(w: Warning): (row: seq<string>)
    ensures |row| == |CsvFields|
    ensures forall k :: 0 <= k < |row| ==> row[k] == CellValue(w, CsvFields[k])
  {
    seq(|CsvFields|, k requires 0 <= k < |CsvFields| => CellValue(w, CsvFields[k]))
  }

  /** The lines of the file: the header joined by ',', then each row. */
  function CsvLines(header: seq<string>, ws: seq<Warning>): (lines: seq<string>)
    ensures |lines| == 1 + |ws| && lines[0] == Join(header, ",")
    ensures forall i :: 0 <= i < |ws| ==> lines[i + 1] == Join(CsvRow(ws[i]), ",")
  {
    [Join(header, ",")] + seq(|ws|, i requires 0 <= i < |ws| => Join(CsvRow(ws[i]), ","))
  }

  /** generateCSV as written. */
  function GenerateCsv(ws: seq<Warning>): string {
    Join(CsvLines(CsvHeaders, ws), "\n")
  }

  /** generateCSV with the header cut to the columns the rows carry. */
  function GenerateCsvAligned(ws: seq<Warning>): string {
    Join(CsvLines(CsvHeaders[1..], ws), "\n")
  }

  /** No exported cell of any warning contains c. */
  predicate CellsAvoid(ws: seq<Warning>, c: char) {
    forall i, k :: 0 <= i < |ws| && 0 <= k < |CsvFields| ==> c !in CellValue(ws[i], CsvFields[k])
  }

  lemma HeadersAvoid(c: char)
    requires c == ',' || c == '\n'
    ensures forall k :: 0 <= k < |CsvHeaders| ==> c !in CsvHeaders[k]
  {
  }

  /** Splitting the file on '\n' gives one line per warning after the header
      line, when no exported cell holds a line break. */
  lemma {:induction false} CsvLinesSplit(header: seq<string>, ws: seq<Warning>)
    requires forall k :: 0 <= k < |header| ==> '\n' !in header[k]
    requires CellsAvoid(ws, '\n')
    ensures Split(Join(CsvLines(header, ws), "\n"), '\n') == CsvLines(header, ws)
  {
    var lines := CsvLines(header, ws);
    JoinAvoids(header, ",", '\n');
    forall j | 0 <= j < |lines| ensures '\n' !in lines[j] {
      if j > 0 {
        JoinAvoids(CsvRow(ws[j - 1]), ",", '\n');
      }
    }
    SplitJoin(lines, '\n');
  }

  /** The shape of generateCSV's output: 1 + |warnings| lines, the header
      line first, then line i + 1 holding the seven cells of warning i joined
      by ','. */
  lemma CsvShape(ws: seq<Warning>)
    requires CellsAvoid(ws, '\n')
    ensures var lines := Split(GenerateCsv(ws), '\n');
            && |lines| == 1 + |ws|
            && lines[0] == Join(CsvHeaders, ",")
            && forall i :: 0 <= i < |ws| ==> lines[i + 1] == Join(CsvRow(ws[i]), ",")
  {
    HeadersAvoid('\n');
    CsvLinesSplit(CsvHeaders, ws);
  }

  /** When no exported cell holds ',' or '\n', splitting row i + 1 on ','
      recovers employeeName, employeeEmail, warningType, severity,
      warningReason, warningDate and company of warning i. */
  lemma CsvRowRoundTrip(ws: seq<Warning>, i: int)
    requires 0 <= i < |ws|
    requires CellsAvoid(ws, '\n') && CellsAvoid(ws, ',')
    ensures var lines := Split(GenerateCsv(ws), '\n');
            && |lines| == 1 + |ws|
            && var cells := Split(lines[i + 1], ',');
            && |cells| == |CsvFields|
            && forall k :: 0 <= k < |CsvFields| ==> cells[k] == CellValue(ws[i], CsvFields[k])
  {
    CsvShape(ws);
    SplitJoin(CsvRow(ws[i]), ',');
  }

  /** The header row has one cell more than every data row, and the title of
      the field in row cell k stands in header cell k + 1: every title sits
      one column to the right of its data. */
  lemma CsvHeaderMisaligned(ws: seq<Warning>)
    requires |ws| > 0
    requires CellsAvoid(ws, '\n') && CellsAvoid(ws, ',')
    ensures var lines := Split(GenerateCsv(ws), '\n');
            && |lines| == 1 + |ws|
            && |Split(lines[0], ',')| == 8
            && |Split(lines[1], ',')| == 7
            && forall k :: 0 <= k < |CsvFields| ==> Split(lines[0], ',')[k + 1] == ColumnTitle(CsvFields[k])
  {
    CsvShape(ws);
    HeadersAvoid(',');
    SplitJoin(CsvHeaders, ',');
    CsvRowRoundTrip(ws, 0);
    HeaderTitlesShifted();
  }

  /** Header cell k + 1 of the source's header row is the title of exported
      field k. */
  lemma HeaderTitlesShifted()
    ensures forall k :: 0 <= k < |CsvFields| ==> CsvHeaders[k + 1] == ColumnTitle(CsvFields[k])
  {
  }

  /** In the corrected export every line has the same seven cells, and header
      cell k titles the field whose values fill cell k of every row. */
  lemma CsvAlignedColumns(ws: seq<Warning>)
    requires CellsAvoid(ws, '\n') && CellsAvoid(ws, ',')
    ensures var lines := Split(GenerateCsvAligned(ws), '\n');
            && |lines| == 1 + |ws|
            && |Split(lines[0], ',')| == |CsvFields|
            && (forall k :: 0 <= k < |CsvFields| ==> Split(lines[0], ',')[k] == ColumnTitle(CsvFields[k]))
            && forall i, k :: 0 <= i < |ws| && 0 <= k < |CsvFields| ==>
                 |Split(lines[i + 1], ',')| == |CsvFields| && Split(lines[i + 1], ',')[k] == CellValue(ws[i], CsvFields[k])
  {
    var header := CsvHeaders[1..];
    HeadersAvoid('\n');
    HeadersAvoid(',');
    CsvLinesSplit(header, ws);
    SplitJoin(header, ',');
    forall i | 0 <= i < |ws| ensures Split(Join(CsvRow(ws[i]), ","), ',') == CsvRow(ws[i]) {
      SplitJoin(CsvRow(ws[i]), ',');
    }
  }
}
