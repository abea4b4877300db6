/** Reading a whole resident list (`parseResidentRecords` in `ResidentImportPreview.tsx`). */
module Residents {
  import opened Sorting
  import opened Csv

  datatype ResidentRecord = ResidentRecord(residentNumber: string, email: string, name: string, phone: string)

  datatype ImportError = TooFewRows | MissingColumns | IncompleteRecord | RepeatedNumber(residentNumber: string)

  datatype Import = Imported(records: seq<ResidentRecord>) | Refused(error: ImportError)

  // ----- rows -----

  function DropReturn(line: string): string {
    if line != [] && Last(line) == '\r' then Init(line) else line
  }

  /** `split(/\r?\n/)`, with `current` read of the line so far. */
  function SplitLines(text: string, current: string): seq<string> {
    if text == [] then [current]
    else if text[0] == '\n' then [DropReturn(current)] + SplitLines(text[1..], "")
    else SplitLines(text[1..], current + [text[0]])
  }

  /** `filter(Boolean).map(parseCsvLine)` */
  function ParseRows(lines: seq<string>): seq<seq<string>> {
    if lines == [] then []
    else if lines[0] == "" then ParseRows(lines[1..])
    else [Parse(lines[0])] + ParseRows(lines[1..])
  }

  function Rows(text: string): seq<seq<string>> {
    ParseRows(SplitLines(Trim(text), ""))
  }

  // ----- headers -----

  /** Lower case, as far as equality with an ASCII name can tell. */
  function Lower(c: char): char {
    if 'A' <= c <= 'Z' then ((c as int) + 32) as char else c
  }

  /** `toLowerCase().replace(/[ _-]+/g, "")` */
  function Squeeze(s: string): string {
    if s == [] then [] else
      Squeeze(Init(s)) + if Last(s) == ' ' || Last(s) == '_' || Last(s) == '-' then [] else [Lower(Last(s))]
  }

  function NormaliseHeader(s: string): string {
    Squeeze(Trim(s))
  }

  /** `findIndex`: the first column with either name, or -1. */
  function Column(headers: seq<string>, name: string, alias: string, from: nat := 0): int
    decreases |headers| - from
  {
    if from >= |headers| then -1
    else if NormaliseHeader(headers[from]) == name || NormaliseHeader(headers[from]) == alias then from
    else Column(headers, name, alias, from + 1)
  }

  datatype Columns = Columns(residentNumber: int, email: int, name: int, phone: int)

  function ColumnsOf(headers: seq<string>): Columns {
    Columns(Column(headers, "residentnumber", "residentno"), Column(headers, "email", "emailaddress"),
            Column(headers, "name", "fullname"), Column(headers, "phone", "phonenumber"))
  }

  // ----- records -----

  /** `row[index]?.trim() ?? ""`, or "" for a column that is not there. */
  function Cell(row: seq<string>, index: int): string {
    if 0 <= index < |row| then Trim(row[index]) else ""
  }

  function RecordOf(row: seq<string>, c: Columns): ResidentRecord {
    ResidentRecord(Cell(row, c.residentNumber), Cell(row, c.email), Cell(row, c.name), Cell(row, c.phone))
  }

  function RecordsOf(rows: seq<seq<string>>, c: Columns): seq<ResidentRecord> {
    seq(|rows|, i requires 0 <= i < |rows| => RecordOf(rows[i], c))
  }

  predicate Complete(r: ResidentRecord) {
    r.residentNumber != "" && r.email != ""
  }

  function NumberOf(r: ResidentRecord): string {
    r.residentNumber
  }

  /** What is wrong with record `i`, given those before it. */
  predicate Offends(records: seq<ResidentRecord>, i: nat)
    requires i < |records|
  {
    !Complete(records[i]) || records[i].residentNumber in Ids(NumberOf, records[..i])
  }

  function ErrorAt(records: seq<ResidentRecord>, i: nat): ImportError
    requires i < |records|
  {
    if !Complete(records[i]) then IncompleteRecord else RepeatedNumber(records[i].residentNumber)
  }

  /** `error` is that of the first record that offends. */
  ghost predicate FirstOffence(records: seq<ResidentRecord>, error: ImportError) {
    exists i :: 0 <= i < |records| && Offends(records, i) && error == ErrorAt(records, i) &&
                forall j :: 0 <= j < i ==> !Offends(records, j)
  }

  /** Every record is complete and no two share a number. */
  ghost predicate Admissible(records: seq<ResidentRecord>) {
    (forall r :: r in records ==> Complete(r)) && DistinctIds(NumberOf, records)
  }

  lemma {:induction false} AdmissibleIff(records: seq<ResidentRecord>)
    ensures Admissible(records) <==> forall i :: 0 <= i < |records| ==> !Offends(records, i)
  {
    if records != [] {
      var init, last := Init(records), Last(records);
      SplitLast(records);
      AdmissibleIff(init);
      forall i | 0 <= i < |init| ensures Offends(records, i) <==> Offends(init, i) {
        assert records[..i] == init[..i];
      }
      assert records[..|records| - 1] == init;
      assert Offends(records, |records| - 1) <==> !Complete(last) || last.residentNumber in Ids(NumberOf, init);
      assert forall r :: r in records <==> r in init || r == last;
    }
  }

  /** The loop: all records, or the error of the first that offends. */
  method CheckRecords(records: seq<ResidentRecord>) returns (result: Import)
    ensures result.Imported? <==> Admissible(records)
    ensures result.Imported? ==> result.records == records
    ensures result.Refused? ==> FirstOffence(records, result.error)
  {
    var seen := {};
    AdmissibleIff(records);
    for i := 0 to |records|
      invariant seen == Ids(NumberOf, records[..i])
      invariant forall j :: 0 <= j < i ==> !Offends(records, j)
    {
      var record := records[i];
      if record.residentNumber == "" || record.email == "" {
        assert Offends(records, i);
        return Refused(IncompleteRecord);
      }
      if record.residentNumber in seen {
        assert Offends(records, i);
        return Refused(RepeatedNumber(record.residentNumber));
      }
      var next := records[..i + 1];
      assert Init(next) == records[..i] && Last(next) == record;
      seen := seen + {record.residentNumber};
    }
    result := Imported(records);
  }

  /** The records a text holds, when it has rows enough and the two required columns. */
  function Held(text: string): seq<ResidentRecord>
    requires |Rows(text)| >= 2
  {
    RecordsOf(Rows(text)[1..], ColumnsOf(Rows(text)[0]))
  }

  predicate HasColumns(c: Columns) {
    c.residentNumber >= 0 && c.email >= 0
  }

  method ParseResidentRecords(text: string) returns (result: Import)
    ensures |Rows(text)| < 2 ==> result == Refused(TooFewRows)
    ensures |Rows(text)| >= 2 && !HasColumns(ColumnsOf(Rows(text)[0])) ==> result == Refused(MissingColumns)
    ensures |Rows(text)| >= 2 && HasColumns(ColumnsOf(Rows(text)[0])) ==>
              && (result.Imported? <==> Admissible(Held(text)))
              && (result.Imported? ==> result.records == Held(text))
              && (result.Refused? ==> FirstOffence(Held(text), result.error))
  {
    var rows := Rows(text);
    if |rows| < 2 {
      return Refused(TooFewRows);
    }
    var columns := ColumnsOf(rows[0]);
    if columns.residentNumber < 0 || columns.email < 0 {
      return Refused(MissingColumns);
    }
    result := CheckRecords(RecordsOf(rows[1..], columns));
  }

  // ----- writing a list and reading it back -----

  function Quoted(texts: seq<string>): (fields: seq<Field>)
    ensures |fields| == |texts| && forall i :: 0 <= i < |texts| ==> fields[i] == Field(texts[i], true)
  {
    seq(|texts|, i requires 0 <= i < |texts| => Field(texts[i], true))
  }

  const HEADER: seq<string> := ["residentnumber", "email", "name", "phone"]

  function CellsOf(r: ResidentRecord): seq<string> {
    [r.residentNumber, r.email, r.name, r.phone]
  }

  /** The lines with a line feed, or a carriage return and line feed, after each but the last. */
  function JoinLines(lines: seq<string>, crlf: bool): string
    requires lines != []
  {
    if |lines| == 1 then lines[0] else lines[0] + (if crlf then "\r\n" else "\n") + JoinLines(lines[1..], crlf)
  }

  function WriteList(records: seq<ResidentRecord>, crlf: bool): string {
    JoinLines(Lines(records), crlf)
  }

  /** The header line and one line for each record, every field quoted. */
  function Lines(records: seq<ResidentRecord>): (lines: seq<string>)
    ensures lines != []
  {
    [WriteLine(Quoted(HEADER))] + BodyLines(records)
  }

  function BodyLines(records: seq<ResidentRecord>): seq<string> {
    if records == [] then [] else [WriteLine(Quoted(CellsOf(records[0])))] + BodyLines(records[1..])
  }

  /** A text that can stand on one line and has nothing to strip. */
  predicate Plain(s: string) {
    Trimmed(s) && '\n' !in s
  }

  predicate PlainRecord(r: ResidentRecord) {
    Plain(r.residentNumber) && Plain(r.email) && Plain(r.name) && Plain(r.phone)
  }

  // A quoted line starts and ends with a quote and has no line feed in it.
  predicate LineShaped(line: string) {
    line != [] && line[0] == QUOTE && Last(line) == QUOTE && '\n' !in line
  }

  lemma {:induction false} EscapeChars(text: string, c: char)
    ensures c in Escape(text) <==> c in text
  {
    if text != [] {
      SplitLast(text);
      EscapeChars(Init(text), c);
    }
  }

  lemma {:induction false} QuotedLineShaped(fields: seq<Field>)
    requires fields != [] && forall f :: f in fields ==> f.enclosed && '\n' !in f.text
    ensures LineShaped(WriteLine(fields))
  {
    var last := Last(fields);
    assert last in fields;
    EscapeChars(last.text, '\n');
    var written := WriteField(last);
    assert written[0] == QUOTE && Last(written) == QUOTE && '\n' !in written;
    if |fields| > 1 {
      SplitLast(fields);
      QuotedLineShaped(Init(fields));
    }
  }

  lemma {:induction false} SplitOneLine(line: string, rest: string, current: string)
    requires '\n' !in line
    ensures SplitLines(line + rest, current) == SplitLines(rest, current + line)
  {
    if line == [] {
      assert line + rest == rest && current + line == current;
    } else {
      assert (line + rest)[1..] == line[1..] + rest;
      SplitOneLine(line[1..], rest, current + [line[0]]);
      assert current + [line[0]] + line[1..] == current + line;
    }
  }

  /**
   A line that splitting finds again: it holds no line feed and, where a bare line feed follows it, does not
   end in a carriage return.
   */
  predicate StandsAlone(line: string, bareFeedFollows: bool) {
    '\n' !in line && (bareFeedFollows && line != [] ==> Last(line) != '\r')
  }

  predicate LinesStandAlone(lines: seq<string>, crlf: bool) {
    forall i :: 0 <= i < |lines| ==> StandsAlone(lines[i], !crlf && i < |lines| - 1)
  }

  lemma {:induction false} FeedEndsLine(line: string, rest: string)
    requires '\n' !in line
    ensures SplitLines(line + "\n" + rest, "") == [DropReturn(line)] + SplitLines(rest, "")
  {
    SplitOneLine(line, "\n" + rest, "");
    assert line + "\n" + rest == line + ("\n" + rest) && "" + line == line;
    assert ("\n" + rest)[1..] == rest;
  }

  lemma {:induction false} SplitJoined(lines: seq<string>, crlf: bool)
    requires lines != [] && LinesStandAlone(lines, crlf)
    ensures SplitLines(JoinLines(lines, crlf), "") == lines
    decreases |lines|
  {
    var line := lines[0];
    assert StandsAlone(line, !crlf && 0 < |lines| - 1);
    if |lines| == 1 {
      SplitOneLine(line, "", "");
      assert line + "" == line && "" + line == line;
    } else {
      var rest := JoinLines(lines[1..], crlf);
      forall i | 0 <= i < |lines| - 1 ensures StandsAlone(lines[1..][i], !crlf && i < |lines| - 2) {
        assert StandsAlone(lines[i + 1], !crlf && i + 1 < |lines| - 1);
      }
      SplitJoined(lines[1..], crlf);
      if crlf {
        FeedEndsLine(line + "\r", rest);
        assert JoinLines(lines, crlf) == line + "\r" + "\n" + rest && DropReturn(line + "\r") == line;
      } else {
        FeedEndsLine(line, rest);
      }
    }
  }

  lemma {:induction false} JoinedEnds(lines: seq<string>, crlf: bool)
    requires lines != [] && forall line :: line in lines ==> LineShaped(line)
    ensures var text := JoinLines(lines, crlf); text != [] && text[0] == QUOTE && Last(text) == QUOTE
    decreases |lines|
  {
    assert lines[0] in lines;
    if |lines| > 1 {
      JoinedEnds(lines[1..], crlf);
    }
  }

  lemma CellsPlain(r: ResidentRecord)
    requires PlainRecord(r)
    ensures forall f :: f in Quoted(CellsOf(r)) ==> f.enclosed && Plain(f.text)
  {
  }

  lemma HeaderPlain()
    ensures forall f :: f in Quoted(HEADER) ==> f.enclosed && Plain(f.text)
  {
  }

  lemma {:induction false} LinesShaped(records: seq<ResidentRecord>)
    requires forall r :: r in records ==> PlainRecord(r)
    ensures forall line :: line in BodyLines(records) ==> LineShaped(line)
  {
    if records != [] {
      assert records[0] in records;
      CellsPlain(records[0]);
      QuotedLineShaped(Quoted(CellsOf(records[0])));
      LinesShaped(records[1..]);
    }
  }

  function AllCells(records: seq<ResidentRecord>): seq<seq<string>> {
    if records == [] then [] else [CellsOf(records[0])] + AllCells(records[1..])
  }

  lemma ParseQuoted(texts: seq<string>)
    requires texts != [] && forall f :: f in Quoted(texts) ==> Plain(f.text)
    ensures Parse(WriteLine(Quoted(texts))) == texts
  {
    RoundTrip(Quoted(texts));
    assert Texts(Quoted(texts)) == texts;
  }

  lemma {:induction false} RowsOfBody(records: seq<ResidentRecord>)
    requires forall r :: r in records ==> PlainRecord(r)
    ensures ParseRows(BodyLines(records)) == AllCells(records)
  {
    if records != [] {
      assert records[0] in records;
      CellsPlain(records[0]);
      QuotedLineShaped(Quoted(CellsOf(records[0])));
      ParseQuoted(CellsOf(records[0]));
      RowsOfBody(records[1..]);
      assert BodyLines(records)[1..] == BodyLines(records[1..]);
    }
  }

  lemma ListLines(lines: seq<string>, crlf: bool)
    requires lines != [] && forall line :: line in lines ==> LineShaped(line)
    ensures SplitLines(Trim(JoinLines(lines, crlf)), "") == lines
  {
    JoinedEnds(lines, crlf);
    TrimFixes(JoinLines(lines, crlf));
    forall i | 0 <= i < |lines| ensures StandsAlone(lines[i], !crlf && i < |lines| - 1) {
      assert lines[i] in lines;
    }
    SplitJoined(lines, crlf);
  }

  lemma HeaderLine()
    ensures LineShaped(WriteLine(Quoted(HEADER))) && Parse(WriteLine(Quoted(HEADER))) == HEADER
  {
    HeaderPlain();
    QuotedLineShaped(Quoted(HEADER));
    ParseQuoted(HEADER);
  }

  lemma RowsOfList(records: seq<ResidentRecord>, crlf: bool)
    requires forall r :: r in records ==> PlainRecord(r)
    ensures Rows(WriteList(records, crlf)) == [HEADER] + AllCells(records)
  {
    var header, body := WriteLine(Quoted(HEADER)), BodyLines(records);
    HeaderLine();
    LinesShaped(records);
    ListLines([header] + body, crlf);
    RowsOfBody(records);
    assert ([header] + body)[1..] == body;
  }

  predicate Letters(s: string) {
    s != [] && forall i :: 0 <= i < |s| ==> 'a' <= s[i] <= 'z'
  }

  lemma SqueezeSnoc(s: string, c: char)
    requires 'a' <= c <= 'z'
    ensures Squeeze(s + [c]) == Squeeze(s) + [c]
  {
    assert Init(s + [c]) == s && Last(s + [c]) == c;
  }

  lemma {:induction false} SqueezeLower(s: string)
    requires forall i :: 0 <= i < |s| ==> 'a' <= s[i] <= 'z'
    ensures Squeeze(s) == s
  {
    if s != [] {
      var init, c := s[..|s| - 1], s[|s| - 1];
      assert s == init + [c];
      SqueezeLower(init);
      SqueezeSnoc(init, c);
    }
  }

  lemma LetterStays(c: char)
    requires 'a' <= c <= 'z'
    ensures !Strips(c)
  {
  }

  lemma NormalHeader(s: string)
    requires Letters(s)
    ensures NormaliseHeader(s) == s
  {
    LetterStays(s[0]);
    LetterStays(Last(s));
    TrimFixes(s);
    SqueezeLower(s);
  }

  predicate Names(header: string, name: string, alias: string) {
    NormaliseHeader(header) == name || NormaliseHeader(header) == alias
  }

  /** The column found from `from` on is the first whose header is the name or its alias, and -1 if there is none. */
  lemma {:induction false} FirstColumn(headers: seq<string>, name: string, alias: string, from: nat)
    ensures var k := Column(headers, name, alias, from);
            if k >= 0 then from <= k < |headers| && Names(headers[k], name, alias) &&
                           forall j :: from <= j < k ==> !Names(headers[j], name, alias)
            else k == -1 && forall j :: from <= j < |headers| ==> !Names(headers[j], name, alias)
    decreases |headers| - from
  {
    if from < |headers| && !Names(headers[from], name, alias) {
      FirstColumn(headers, name, alias, from + 1);
    }
  }

  lemma HeaderColumn(k: nat, name: string, alias: string)
    requires k < |HEADER| && HEADER[k] == name
    requires forall j :: 0 <= j <= k ==> Letters(HEADER[j])
    requires forall j :: 0 <= j < k ==> HEADER[j] != name && HEADER[j] != alias
    ensures Column(HEADER, name, alias, 0) == k
  {
    forall j | 0 <= j <= k ensures NormaliseHeader(HEADER[j]) == HEADER[j] {
      NormalHeader(HEADER[j]);
    }
    FirstColumn(HEADER, name, alias, 0);
    assert Names(HEADER[k], name, alias) && forall j :: 0 <= j < k ==> !Names(HEADER[j], name, alias);
  }

  lemma HeaderLetters(j: nat)
    requires j < |HEADER|
    ensures Letters(HEADER[j])
    ensures HEADER[j][0] == ['r', 'e', 'n', 'p'][j]
  {
    assert Letters("residentnumber") && Letters("email") && Letters("name") && Letters("phone");
  }

  lemma HeaderColumnNamed(k: nat, name: string, alias: string)
    requires k < |HEADER| && HEADER[k] == name
    requires alias != "" && (alias[0] == 'f' || alias[0] == ['r', 'e', 'n', 'p'][k])
    ensures Column(HEADER, name, alias, 0) == k
  {
    forall j | 0 <= j <= k ensures Letters(HEADER[j]) && (j < k ==> HEADER[j] != name && HEADER[j] != alias) {
      HeaderLetters(j);
      HeaderLetters(k);
    }
    HeaderColumn(k, name, alias);
  }

  lemma HeaderColumns()
    ensures ColumnsOf(HEADER) == Columns(0, 1, 2, 3)
  {
    HeaderColumnNamed(0, "residentnumber", "residentno");
    HeaderColumnNamed(1, "email", "emailaddress");
    HeaderColumnNamed(2, "name", "fullname");
    HeaderColumnNamed(3, "phone", "phonenumber");
  }

  lemma {:induction false} RecordsOfCells(records: seq<ResidentRecord>)
    requires forall r :: r in records ==> PlainRecord(r)
    ensures RecordsOf(AllCells(records), Columns(0, 1, 2, 3)) == records
  {
    if records != [] {
      var r := records[0];
      assert r in records;
      TrimFixes(r.residentNumber);
      TrimFixes(r.email);
      TrimFixes(r.name);
      TrimFixes(r.phone);
      RecordsOfCells(records[1..]);
      var rows := AllCells(records);
      assert rows[1..] == AllCells(records[1..]);
      assert RecordOf(rows[0], Columns(0, 1, 2, 3)) == r;
      assert RecordsOf(rows, Columns(0, 1, 2, 3)) == [r] + RecordsOf(rows[1..], Columns(0, 1, 2, 3));
    }
  }

  /** Writing a list of plain records and reading it back finds exactly those records. */
  lemma ListRoundTrip(records: seq<ResidentRecord>, crlf: bool)
    requires records != [] && forall r :: r in records ==> PlainRecord(r)
    ensures var text := WriteList(records, crlf);
            && |Rows(text)| >= 2
            && HasColumns(ColumnsOf(Rows(text)[0]))
            && Held(text) == records
  {
    RowsOfList(records, crlf);
    HeaderColumns();
    RecordsOfCells(records);
    assert AllCells(records) != [];
    assert Rows(WriteList(records, crlf))[1..] == AllCells(records);
  }

  /** So the import accepts a written list iff its records are complete and their numbers distinct. */
  method ImportWritten(records: seq<ResidentRecord>, crlf: bool) returns (result: Import)
    requires records != [] && forall r :: r in records ==> PlainRecord(r)
    ensures if Admissible(records) then result == Imported(records) else result.Refused?
  {
    ListRoundTrip(records, crlf);
    result := ParseResidentRecords(WriteList(records, crlf));
  }

  // ----- what the parts mean -----

  /** A line as it is found, and as it is when a line feed ended it: without one carriage return at its end. */
  predicate FoundAs(found: string, line: string, ended: bool) {
    if ended && line != "" && line[|line| - 1] == '\r' then found == line[..|line| - 1] else found == line
  }

  /** A text is split at its line feeds, and a line that a line feed ends loses one carriage return before it. */
  lemma {:induction false} SplitAnyLines(lines: seq<string>)
    requires lines != [] && forall line :: line in lines ==> '\n' !in line
    ensures var found := SplitLines(JoinLines(lines, false), "");
            |found| == |lines| && forall i :: 0 <= i < |lines| ==> FoundAs(found[i], lines[i], i < |lines| - 1)
    decreases |lines|
  {
    var line := lines[0];
    assert line in lines;
    if |lines| == 1 {
      SplitOneLine(line, "", "");
      assert line + "" == line && "" + line == line;
    } else {
      SplitAnyLines(lines[1..]);
      FeedEndsLine(line, JoinLines(lines[1..], false));
      var rest := SplitLines(JoinLines(lines[1..], false), "");
      assert SplitLines(JoinLines(lines, false), "") == [DropReturn(line)] + rest;
      forall i | 0 < i < |lines| ensures FoundAs(rest[i - 1], lines[i], i < |lines| - 1) {
        assert lines[1..][i - 1] == lines[i];
      }
    }
  }

  function NonEmpty(lines: seq<string>): seq<string> {
    if lines == [] then [] else NonEmpty(Init(lines)) + if Last(lines) == "" then [] else [Last(lines)]
  }

  lemma {:induction false} ParseRowsSnoc(lines: seq<string>, line: string)
    ensures ParseRows(lines + [line]) == ParseRows(lines) + if line == "" then [] else [Parse(line)]
  {
    if lines != [] {
      ParseRowsSnoc(lines[1..], line);
      assert (lines + [line])[1..] == lines[1..] + [line];
    } else {
      assert ([] + [line])[1..] == [] && ParseRows([]) == [];
    }
  }

  /** The rows are those of the lines that are not empty, in order. */
  lemma {:induction false} RowsOfLines(lines: seq<string>)
    ensures |ParseRows(lines)| == |NonEmpty(lines)|
    ensures forall i :: 0 <= i < |ParseRows(lines)| ==> ParseRows(lines)[i] == Parse(NonEmpty(lines)[i])
  {
    if lines != [] {
      RowsOfLines(Init(lines));
      SplitLast(lines);
      ParseRowsSnoc(Init(lines), Last(lines));
    }
  }

  /** White space around the whole text is ignored. */
  lemma EndsIgnored(front: string, text: string, back: string)
    requires forall i :: 0 <= i < |front| ==> Strips(front[i])
    requires forall i :: 0 <= i < |back| ==> Strips(back[i])
    requires Trimmed(text)
    ensures Rows(front + text + back) == ParseRows(SplitLines(text, ""))
  {
    TrimIgnoresEnds(front, text, back);
  }

  /** Header names are read character by character: blanks, underscores and hyphens drop out, capitals are lowered. */
  lemma {:induction false} SqueezeAppend(a: string, b: string)
    ensures Squeeze(a + b) == Squeeze(a) + Squeeze(b)
  {
    if b == [] {
      assert a + b == a;
    } else {
      SqueezeAppend(a, Init(b));
      assert Init(a + b) == a + Init(b);
    }
  }

  lemma SqueezeCharacter(c: char)
    ensures c == ' ' || c == '_' || c == '-' ==> Squeeze([c]) == ""
    ensures 'A' <= c <= 'Z' ==> |Squeeze([c])| == 1 && 'a' <= Squeeze([c])[0] <= 'z' &&
                                Squeeze([c])[0] as int - 'a' as int == c as int - 'A' as int
    ensures c != ' ' && c != '_' && c != '-' && !('A' <= c <= 'Z') ==> Squeeze([c]) == [c]
  {
    assert Init([c]) == [] && Squeeze([]) == [];
  }

  /** So capitals make no difference to which column a header names. */
  lemma {:induction false} CapitalsIgnored(s: string, t: string)
    requires |s| == |t|
    requires forall i :: 0 <= i < |s| ==> s[i] == t[i] || ('A' <= s[i] <= 'Z' && t[i] as int == s[i] as int + 32)
    ensures Squeeze(s) == Squeeze(t)
    decreases |s|
  {
    if s != [] {
      CapitalsIgnored(Init(s), Init(t));
      assert Lower(Last(s)) == Lower(Last(t));
    }
  }

  ghost predicate Heads(headers: seq<string>, i: int, name: string, alias: string) {
    0 <= i < |headers| && (NormaliseHeader(headers[i]) == name || NormaliseHeader(headers[i]) == alias)
  }

  /** `k` is the first column with either name, -1 if there is none. */
  ghost predicate IsColumn(headers: seq<string>, k: int, name: string, alias: string) {
    || (Heads(headers, k, name, alias) && forall j :: 0 <= j < k ==> !Heads(headers, j, name, alias))
    || (k == -1 && forall j :: 0 <= j < |headers| ==> !Heads(headers, j, name, alias))
  }

  /** Each of the four columns is found by its two names. */
  lemma ColumnsByName(headers: seq<string>)
    ensures IsColumn(headers, ColumnsOf(headers).residentNumber, "residentnumber", "residentno")
    ensures IsColumn(headers, ColumnsOf(headers).email, "email", "emailaddress")
    ensures IsColumn(headers, ColumnsOf(headers).name, "name", "fullname")
    ensures IsColumn(headers, ColumnsOf(headers).phone, "phone", "phonenumber")
  {
    FirstColumn(headers, "residentnumber", "residentno", 0);
    FirstColumn(headers, "email", "emailaddress", 0);
    FirstColumn(headers, "name", "fullname", 0);
    FirstColumn(headers, "phone", "phonenumber", 0);
  }

  /** Each field of a record comes from its own column, trimmed, and is empty where the row has no such column. */
  lemma RecordByColumn(row: seq<string>, c: Columns)
    ensures RecordOf(row, c).residentNumber == if 0 <= c.residentNumber < |row| then Trim(row[c.residentNumber]) else ""
    ensures RecordOf(row, c).email == if 0 <= c.email < |row| then Trim(row[c.email]) else ""
    ensures RecordOf(row, c).name == if 0 <= c.name < |row| then Trim(row[c.name]) else ""
    ensures RecordOf(row, c).phone == if 0 <= c.phone < |row| then Trim(row[c.phone]) else ""
  {
  }

  /** A record offends when it lacks its number or e-mail address, or an earlier one has its number. */
  lemma {:induction false} NumbersBefore(records: seq<ResidentRecord>, n: string)
    ensures n in Ids(NumberOf, records) <==> exists j :: 0 <= j < |records| && records[j].residentNumber == n
  {
    if records != [] {
      NumbersBefore(Init(records), n);
      SplitLast(records);
    }
  }

  lemma OffendsMeans(records: seq<ResidentRecord>, i: nat)
    requires i < |records|
    ensures Offends(records, i) <==>
              || records[i].residentNumber == "" || records[i].email == ""
              || exists j :: 0 <= j < i && records[j].residentNumber == records[i].residentNumber
    ensures ErrorAt(records, i).IncompleteRecord? <==> records[i].residentNumber == "" || records[i].email == ""
    ensures !ErrorAt(records, i).IncompleteRecord? ==> ErrorAt(records, i) == RepeatedNumber(records[i].residentNumber)
  {
    NumbersBefore(records[..i], records[i].residentNumber);
  }

  /** The import in a word: refused iff a record lacks its number or e-mail address or repeats a number. */
  lemma AdmissibleMeans(records: seq<ResidentRecord>)
    ensures Admissible(records) <==>
              && (forall i :: 0 <= i < |records| ==> records[i].residentNumber != "" && records[i].email != "")
              && (forall i, j :: 0 <= j < i < |records| ==> records[j].residentNumber != records[i].residentNumber)
  {
    AdmissibleIff(records);
    forall i | 0 <= i < |records|
      ensures Offends(records, i) <==>
                || records[i].residentNumber == "" || records[i].email == ""
                || exists j :: 0 <= j < i && records[j].residentNumber == records[i].residentNumber
    {
      OffendsMeans(records, i);
    }
  }
}
