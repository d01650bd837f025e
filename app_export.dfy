/**
 * The spreadsheet export of App.tsx (`handleExportExcel`): a byte-order mark,
 * a header line, and one line per request with its id, name, certificate
 * tags, status and submission date. Only the text is modelled; the download
 * is not.
 */
module AppExport {
  import opened Types
  import opened Strings

  /** U+FEFF, which tells spreadsheet programs the text is UTF-8. */
  const Bom: char := '\U{FEFF}'

  /** The five column headings. */
  const Headers: seq<string> := ["ID", "ชื่อ-นามสกุล", "รายการ", "สถานะ", "วันที่ยื่น"]

  function Labels(types: seq<CertType>): (ls: seq<string>)
    ensures |ls| == |types| && forall i :: 0 <= i < |types| ==> ls[i] == CertLabel(types[i])
  {
    seq(|types|, i requires 0 <= i < |types| => CertLabel(types[i]))
  }

  /** The values of one request, one per heading; the tags share one value, joined by
      a comma and a space. */
  function Cells(r: Request): (cs: seq<string>)
    ensures |cs| == |Headers|
  {
    [IntToString(r.id), r.fullName, JoinWith(Labels(r.selectedTypes), ", "), StatusLabel(r.status), r.submissionDate]
  }

  /** `r.join(',')`: the values of a line, unquoted. */
  function Line(cells: seq<string>): string {
    JoinWith(cells, ",")
  }

  function RowLines(rs: seq<Request>): (ls: seq<string>)
    ensures |ls| == |rs| && forall i :: 0 <= i < |rs| ==> ls[i] == Line(Cells(rs[i]))
  {
    seq(|rs|, i requires 0 <= i < |rs| => Line(Cells(rs[i])))
  }

  /** The export as written: the mark, then the header and row lines joined by newlines. */
  function CsvAsWritten(rs: seq<Request>): string {
    [Bom] + JoinWith([Line(Headers)] + RowLines(rs), "\n")
  }

  // ---------------------------------------------------------------------------
  // the characters the fixed values avoid

  /** Ids are digits after an optional minus sign. */
  lemma IdCellPlain(n: int)
    ensures ',' !in IntToString(n) && '\n' !in IntToString(n)
  {
    if n < 0 {
      assert IntToString(n) == "-" + NatToString(-n);
    }
  }

  /** The tags hold no comma and no line break. */
  lemma CertLabelAvoids(t: CertType, c: char)
    requires c == ',' || c == '\n'
    ensures c !in CertLabel(t)
  {
    if c == ',' {
      CertLabelNoComma(t);
    } else {
      CertLabelNoBreak(t);
    }
  }

  /** No tag holds a comma ... */
  lemma CertLabelNoComma(t: CertType)
    ensures ',' !in CertLabel(t)
  {
    match t
    case Salary => assert ',' !in CertLabel(Salary);
    case Employment => assert ',' !in CertLabel(Employment);
    case SavingsBank => assert ',' !in CertLabel(SavingsBank);
    case HousingBank => assert ',' !in CertLabel(HousingBank);
    case Krungthai => assert ',' !in CertLabel(Krungthai);
    case IslamicBank => assert ',' !in CertLabel(IslamicBank);
    case UniversityStaffCard => assert ',' !in CertLabel(UniversityStaffCard);
    case GovernmentEmployeeCard => assert ',' !in CertLabel(GovernmentEmployeeCard);
    case CivilServantCard => assert ',' !in CertLabel(CivilServantCard);
    case EnglishCertificate => assert ',' !in CertLabel(EnglishCertificate);
    case EnglishVisa => assert ',' !in CertLabel(EnglishVisa);
  }

  /** ... or a line break. */
  lemma CertLabelNoBreak(t: CertType)
    ensures '\n' !in CertLabel(t)
  {
    match t
    case Salary => assert '\n' !in CertLabel(Salary);
    case Employment => assert '\n' !in CertLabel(Employment);
    case SavingsBank => assert '\n' !in CertLabel(SavingsBank);
    case HousingBank => assert '\n' !in CertLabel(HousingBank);
    case Krungthai => assert '\n' !in CertLabel(Krungthai);
    case IslamicBank => assert '\n' !in CertLabel(IslamicBank);
    case UniversityStaffCard => assert '\n' !in CertLabel(UniversityStaffCard);
    case GovernmentEmployeeCard => assert '\n' !in CertLabel(GovernmentEmployeeCard);
    case CivilServantCard => assert '\n' !in CertLabel(CivilServantCard);
    case EnglishCertificate => assert '\n' !in CertLabel(EnglishCertificate);
    case EnglishVisa => assert '\n' !in CertLabel(EnglishVisa);
  }

  /** No status value holds a comma ... */
  lemma StatusLabelNoComma(s: Status)
    ensures ',' !in StatusLabel(s)
  {
    match s
    case AtHr => assert ',' !in StatusLabel(AtHr);
    case SentHrAdmin => assert ',' !in StatusLabel(SentHrAdmin);
    case SentInternational => assert ',' !in StatusLabel(SentInternational);
    case ReturnedHrAdmin => assert ',' !in StatusLabel(ReturnedHrAdmin);
    case ReturnedInternational => assert ',' !in StatusLabel(ReturnedInternational);
    case Returned => assert ',' !in StatusLabel(Returned);
  }

  /** ... or a line break. */
  lemma StatusLabelNoBreak(s: Status)
    ensures '\n' !in StatusLabel(s)
  {
    match s
    case AtHr => assert '\n' !in StatusLabel(AtHr);
    case SentHrAdmin => assert '\n' !in StatusLabel(SentHrAdmin);
    case SentInternational => assert '\n' !in StatusLabel(SentInternational);
    case ReturnedHrAdmin => assert '\n' !in StatusLabel(ReturnedHrAdmin);
    case ReturnedInternational => assert '\n' !in StatusLabel(ReturnedInternational);
    case Returned => assert '\n' !in StatusLabel(Returned);
  }

  lemma LabelsAvoid(types: seq<CertType>, sep: string, c: char)
    requires c == ',' || c == '\n'
    requires c !in sep
    ensures c !in JoinWith(Labels(types), sep)
  {
    forall k | 0 <= k < |types| ensures c !in Labels(types)[k] {
      CertLabelAvoids(types[k], c);
    }
    JoinAvoids(Labels(types), sep, c);
  }

  /** The headings hold no comma and no line break. */
  lemma HeadersAvoid(c: char)
    requires c == ',' || c == '\n'
    ensures forall h :: 0 <= h < |Headers| ==> c !in Headers[h]
  {
  }

  /** A value the source lets through unchanged has no line break when the name and the
      date have none. */
  predicate OneLine(r: Request) {
    '\n' !in r.fullName && '\n' !in r.submissionDate
  }

  lemma CellsOneLine(r: Request)
    requires OneLine(r)
    ensures forall k :: 0 <= k < |Cells(r)| ==> '\n' !in Cells(r)[k]
  {
    IdCellPlain(r.id);
    LabelsAvoid(r.selectedTypes, ", ", '\n');
    StatusLabelNoBreak(r.status);
  }

  /** Joining lines without breaks of their own gives back exactly those lines. */
  lemma LinesLayout(lines: seq<string>)
    requires |lines| >= 1
    requires forall k :: 0 <= k < |lines| ==> '\n' !in lines[k]
    ensures Split(JoinWith(lines, "\n"), '\n') == lines
  {
    assert "\n" == ['\n'];
    SplitJoin(lines, '\n');
  }

  /** The layout: the mark, then the header line and one line per request in list order,
      n + 1 lines in all, when no name or date holds a line break. */
  lemma CsvLayout(rs: seq<Request>)
    requires forall r :: r in rs ==> OneLine(r)
    ensures CsvAsWritten(rs)[0] == Bom
    ensures Split(CsvAsWritten(rs)[1..], '\n') == [Line(Headers)] + RowLines(rs)
    ensures |Split(CsvAsWritten(rs)[1..], '\n')| == |rs| + 1
  {
    HeadersAvoid('\n');
    JoinAvoids(Headers, ",", '\n');
    forall i | 0 <= i < |rs| ensures '\n' !in RowLines(rs)[i] {
      CellsOneLine(rs[i]);
      JoinAvoids(Cells(rs[i]), ",", '\n');
    }
    HeaderThenRows(Line(Headers), RowLines(rs));
    assert CsvAsWritten(rs)[1..] == JoinWith([Line(Headers)] + RowLines(rs), "\n");
  }

  /** With no requests the export is the mark and the header line alone. */
  lemma CsvEmpty()
    ensures CsvAsWritten([]) == [Bom] + Line(Headers)
  {
    assert [Line(Headers)] + RowLines([]) == [Line(Headers)];
  }

  // ---------------------------------------------------------------------------
  // the unquoted values run into each other's columns

  /** The header line has five comma-separated values. */
  lemma HeaderColumns()
    ensures |Split(Line(Headers), ',')| == |Headers| == 5
  {
    HeadersAvoid(',');
    assert "," == [','];
    SplitJoin(Headers, ',');
  }

  /** As written, a request with two tags gives a line of six comma-separated values
      under the five headings: the comma inside the tag value opens a column. */
  lemma RowSpills(r: Request)
    requires |r.selectedTypes| == 2
    requires ',' !in r.fullName && ',' !in r.submissionDate
    ensures |Split(Line(Cells(r)), ',')| == |Headers| + 1
  {
    var a := CertLabel(r.selectedTypes[0]);
    var b := CertLabel(r.selectedTypes[1]);
    CertLabelAvoids(r.selectedTypes[0], ',');
    CertLabelAvoids(r.selectedTypes[1], ',');
    IdCellPlain(r.id);
    StatusLabelNoComma(r.status);
    assert Labels(r.selectedTypes) == [a, b];
    assert JoinWith([a, b], ", ") == a + ", " + JoinWith([b], ", ");
    assert Cells(r) == [IntToString(r.id), r.fullName, a + ", " + b, StatusLabel(r.status), r.submissionDate];
    SixValues(IntToString(r.id), r.fullName, a, b, StatusLabel(r.status), r.submissionDate);
  }

  /** Five values, the third of them two values joined by a comma and a space, split
      into six at the commas. */
  lemma SixValues(id: string, name: string, a: string, b: string, st: string, date: string)
    requires ',' !in id && ',' !in name && ',' !in a && ',' !in b && ',' !in st && ',' !in date
    ensures Split(Line([id, name, a + ", " + b, st, date]), ',') == [id, name, a, " " + b, st, date]
  {
    var cells := [id, name, a + ", " + b, st, date];
    var spilled := [id, name, a, " " + b, st, date];
    var tail := st + "," + date;
    assert cells[3..] == [st, date] && spilled[4..] == [st, date];
    assert JoinWith(cells[3..], ",") == tail == JoinWith(spilled[4..], ",");
    assert JoinWith(spilled[3..], ",") == " " + b + "," + tail;
    assert JoinWith(spilled[2..], ",") == a + "," + (" " + b + "," + tail);
    assert (a + ", " + b) + "," + tail == a + "," + (" " + b + "," + tail);
    assert JoinWith(cells[2..], ",") == JoinWith(spilled[2..], ",");
    assert cells[2..] == cells[1..][1..] && spilled[2..] == spilled[1..][1..];
    assert JoinWith(cells[1..], ",") == JoinWith(spilled[1..], ",");
    assert forall k :: 0 <= k < |spilled| ==> ',' !in spilled[k];
    assert "," == [','];
    SplitJoin(spilled, ',');
  }

  // ---------------------------------------------------------------------------
  // the export with quoted values (section 2 of RFC 4180)

  /** Doubles each quotation mark. */
  function Escape(v: string): string {
    if v == [] then []
    else (if v[0] == '"' then "\"\"" else [v[0]]) + Escape(v[1..])
  }

  function Quote(v: string): string {
    "\"" + Escape(v) + "\""
  }

  /** The values of a line, each quoted, separated by commas. */
  function QuotedLine(cells: seq<string>): string {
    if |cells| == 0 then []
    else if |cells| == 1 then Quote(cells[0])
    else Quote(cells[0]) + "," + QuotedLine(cells[1..])
  }

  /** The quoted lines of some records, one per record. */
  function QuotedLines(records: seq<seq<string>>): (ls: seq<string>)
    ensures |ls| == |records| && forall i :: 0 <= i < |records| ==> ls[i] == QuotedLine(records[i])
  {
    seq(|records|, i requires 0 <= i < |records| => QuotedLine(records[i]))
  }

  /** The values of each request, in list order. */
  function RowCells(rs: seq<Request>): (cells: seq<seq<string>>)
    ensures |cells| == |rs| && forall i :: 0 <= i < |rs| ==> cells[i] == Cells(rs[i])
  {
    seq(|rs|, i requires 0 <= i < |rs| => Cells(rs[i]))
  }

  /** The records of the export: the headings, then the values of each request. */
  function Records(rs: seq<Request>): (records: seq<seq<string>>)
    ensures |records| == |rs| + 1 && records[0] == Headers
    ensures forall i :: 0 <= i < |rs| ==> records[i + 1] == Cells(rs[i])
  {
    var rows := RowCells(rs);
    assert forall i :: 0 <= i < |rs| ==> ([Headers] + rows)[i + 1] == rows[i];
    [Headers] + rows
  }

  /** The export with every value quoted. */
  function Csv(rs: seq<Request>): string {
    [Bom] + JoinWith(QuotedLines(Records(rs)), "\n")
  }

  function Prepend(c: char, p: Option<(string, string)>): (q: Option<(string, string)>)
    ensures p.Some? <==> q.Some?
    ensures q.Some? ==> q.value == ([c] + p.value.0, p.value.1)
  {
    if p.Some? then Some(([c] + p.value.0, p.value.1)) else None
  }

  /** Reads a quoted value after its opening mark: the value, and what follows its
      closing mark. A doubled mark stands for one mark; a line break is an ordinary
      character. */
  function ParseBody(s: string): (r: Option<(string, string)>)
    ensures r.Some? ==> |r.value.1| < |s|
  {
    if s == [] then None
    else if s[0] == '"' then
      if |s| >= 2 && s[1] == '"' then Prepend('"', ParseBody(s[2..])) else Some(([], s[1..]))
    else Prepend(s[0], ParseBody(s[1..]))
  }

  /** Reads quoted values separated by commas from the front of `s`: the values, and
      what follows the last of them. */
  function ParseFields(s: string): (r: Option<(seq<string>, string)>)
    ensures r.Some? ==> |r.value.1| < |s|
    decreases |s|
  {
    if s == [] || s[0] != '"' then None
    else
      match ParseBody(s[1..])
      case None => None
      case Some(p) =>
        if p.1 != [] && p.1[0] == ',' then
          match ParseFields(p.1[1..])
          case None => None
          case Some(q) => Some(([p.0] + q.0, q.1))
        else Some(([p.0], p.1))
  }

  /** Reads one line of quoted values, and nothing after it. */
  function ParseLine(s: string): Option<seq<string>> {
    match ParseFields(s)
    case None => None
    case Some(p) => if p.1 == [] then Some(p.0) else None
  }

  /** Reads a whole document: records of quoted values, separated by line breaks outside
      the quotes. */
  function ParseRecords(s: string): Option<seq<seq<string>>>
    decreases |s|
  {
    match ParseFields(s)
    case None => None
    case Some(p) =>
      if p.1 == [] then Some([p.0])
      else if p.1[0] != '\n' then None
      else
        match ParseRecords(p.1[1..])
        case None => None
        case Some(more) => Some([p.0] + more)
  }

  lemma {:induction false} BodyRoundTrip(v: string, rest: string)
    requires rest == [] || rest[0] != '"'
    ensures ParseBody(Escape(v) + "\"" + rest) == Some((v, rest))
  {
    var s := Escape(v) + "\"" + rest;
    if v == [] {
      assert s == ['"'] + rest;
      assert s[1..] == rest;
    } else {
      BodyRoundTrip(v[1..], rest);
      var tail := Escape(v[1..]) + "\"" + rest;
      if v[0] == '"' {
        assert s == "\"\"" + tail;
        assert s[2..] == tail;
      } else {
        assert s == [v[0]] + tail;
        assert s[1..] == tail;
      }
      assert [v[0]] + v[1..] == v;
    }
  }

  /** Reading a quoted line off the front of a text gives back its values and leaves the
      rest of the text, whatever characters the values hold. */
  lemma {:induction false} FieldsRoundTrip(cells: seq<string>, rest: string)
    requires |cells| >= 1
    requires rest == [] || (rest[0] != ',' && rest[0] != '"')
    ensures ParseFields(QuotedLine(cells) + rest) == Some((cells, rest))
  {
    if |cells| == 1 {
      LastFieldRoundTrip(cells[0], rest);
      assert cells == [cells[0]];
    } else {
      FieldsRoundTrip(cells[1..], rest);
      FieldThenFields(cells[0], QuotedLine(cells[1..]) + rest, cells[1..], rest);
      assert QuotedLine(cells) + rest == Quote(cells[0]) + "," + (QuotedLine(cells[1..]) + rest);
      assert [cells[0]] + cells[1..] == cells;
    }
  }

  lemma LastFieldRoundTrip(v: string, rest: string)
    requires rest == [] || (rest[0] != ',' && rest[0] != '"')
    ensures ParseFields(Quote(v) + rest) == Some(([v], rest))
  {
    BodyRoundTrip(v, rest);
    assert (Quote(v) + rest)[1..] == Escape(v) + "\"" + rest;
  }

  /** A quoted value and a comma in front of a text whose front reads as `more` read as
      the value and then `more`. */
  lemma FieldThenFields(v: string, tail: string, more: seq<string>, rest: string)
    requires ParseFields(tail) == Some((more, rest))
    ensures ParseFields(Quote(v) + "," + tail) == Some(([v] + more, rest))
  {
    var after := "," + tail;
    BodyRoundTrip(v, after);
    assert (Quote(v) + "," + tail)[1..] == Escape(v) + "\"" + after;
    assert after[1..] == tail;
  }

  /** Reading a quoted line gives back its values, whatever characters they hold. */
  lemma LineRoundTrip(cells: seq<string>)
    requires |cells| >= 1
    ensures ParseLine(QuotedLine(cells)) == Some(cells)
  {
    FieldsRoundTrip(cells, []);
    assert QuotedLine(cells) + [] == QuotedLine(cells);
  }

  /** Reading a document of quoted lines gives back its records, whatever characters,
      line breaks included, the values hold. */
  lemma {:induction false} RecordsRoundTrip(records: seq<seq<string>>)
    requires |records| >= 1
    requires forall i :: 0 <= i < |records| ==> |records[i]| >= 1
    ensures ParseRecords(JoinWith(QuotedLines(records), "\n")) == Some(records)
  {
    var lines := QuotedLines(records);
    if |records| == 1 {
      FieldsRoundTrip(records[0], []);
      assert lines[0] + [] == lines[0];
      assert records == [records[0]];
    } else {
      assert lines[1..] == QuotedLines(records[1..]);
      var more := JoinWith(lines[1..], "\n");
      RecordsRoundTrip(records[1..]);
      FieldsRoundTrip(records[0], "\n" + more);
      assert JoinWith(lines, "\n") == lines[0] + ("\n" + more);
      assert ("\n" + more)[1..] == more;
      assert [records[0]] + records[1..] == records;
    }
  }

  lemma {:induction false} EscapeAvoids(v: string, c: char)
    requires c != '"' && c !in v
    ensures c !in Escape(v)
  {
    if v != [] {
      EscapeAvoids(v[1..], c);
    }
  }

  lemma {:induction false} QuotedLineAvoids(cells: seq<string>)
    requires forall k :: 0 <= k < |cells| ==> '\n' !in cells[k]
    ensures '\n' !in QuotedLine(cells)
  {
    if |cells| >= 1 {
      EscapeAvoids(cells[0], '\n');
      if |cells| > 1 {
        QuotedLineAvoids(cells[1..]);
      }
    }
  }

  /** The export with quoted values: the mark, then n + 1 records, which read back as the
      five headings and then exactly the five values of each request, in list order,
      whatever commas, quotation marks or line breaks a name or a date contains. */
  lemma CsvRecords(rs: seq<Request>)
    ensures Csv(rs)[0] == Bom
    ensures ParseRecords(Csv(rs)[1..]) == Some(Records(rs))
    ensures |Records(rs)| == |rs| + 1 && Records(rs)[0] == Headers
    ensures forall i :: 0 <= i < |rs| ==> Records(rs)[i + 1] == Cells(rs[i]) && |Cells(rs[i])| == |Headers|
  {
    var records := Records(rs);
    forall i | 0 <= i < |records| ensures |records[i]| >= 1 {
      if i > 0 {
        assert records[i] == Cells(rs[i - 1]);
      }
    }
    RecordsRoundTrip(records);
    assert Csv(rs)[1..] == JoinWith(QuotedLines(records), "\n");
  }

  /** When no name or date holds a line break, each record of the quoted export is also
      one physical line. */
  lemma QuotedLayout(rs: seq<Request>)
    requires forall r :: r in rs ==> OneLine(r)
    ensures Split(Csv(rs)[1..], '\n') == QuotedLines(Records(rs))
  {
    var lines := QuotedLines(Records(rs));
    forall k | 0 <= k < |lines| ensures '\n' !in lines[k] {
      if k == 0 {
        HeadersAvoid('\n');
        QuotedLineAvoids(Headers);
      } else {
        assert Records(rs)[k] == Cells(rs[k - 1]);
        CellsOneLine(rs[k - 1]);
        QuotedLineAvoids(Cells(rs[k - 1]));
      }
    }
    LinesLayout(lines);
    assert Csv(rs)[1..] == JoinWith(lines, "\n");
  }

  /** A header line and row lines, none with a break of its own, come back from the split
      of their join. */
  lemma HeaderThenRows(header: string, rows: seq<string>)
    requires '\n' !in header
    requires forall i :: 0 <= i < |rows| ==> '\n' !in rows[i]
    ensures Split(JoinWith([header] + rows, "\n"), '\n') == [header] + rows
  {
    var lines := [header] + rows;
    forall k | 0 <= k < |lines| ensures '\n' !in lines[k] {
      if k > 0 {
        assert lines[k] == rows[k - 1];
      }
    }
    LinesLayout(lines);
  }

  /** With no requests the quoted export is the mark and the header line alone. */
  lemma CsvEmptyQuoted()
    ensures Csv([]) == [Bom] + QuotedLine(Headers)
  {
    assert Records([]) == [Headers];
    assert QuotedLines([Headers]) == [QuotedLine(Headers)];
  }
}
