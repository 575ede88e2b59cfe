/** The audit log as CSV, and a reader of CSV as section 2 of RFC 4180 defines it, with LF as line break. */
module AuditCsv {
  import opened Wrappers
  import opened Sequences
  import opened FileSystem

  datatype AuditStatus = Copied | Moved | Ignored | Failed | Organized | RolledBack

  /** An audit entry; the time and the duration are given as they are printed. */
  datatype AuditEntry = AuditEntry(
    id: int,
    createdAt: string,
    status: AuditStatus,
    jobName: string,
    sourcePath: string,
    targetPath: string,
    fileSize: int,
    durationMs: string,
    details: Option<string>)

  function Signed(n: int): string {
    if n < 0 then "-" + Decimal(-n) else Decimal(n)
  }

  function StatusText(status: AuditStatus): string {
    match status
    case Copied => "COPIED"
    case Moved => "MOVED"
    case Ignored => "IGNORED"
    case Failed => "FAILED"
    case Organized => "ORGANIZED"
    case RolledBack => "ROLLEDBACK"
  }

  function Fields(e: AuditEntry): seq<string> {
    [Signed(e.id), e.createdAt, StatusText(e.status), e.jobName, e.sourcePath, e.targetPath, Signed(e.fileSize),
     e.durationMs, if e.details.Some? then e.details.value else ""]
  }

  const HEADER: seq<string> :=
    ["id", "created_at", "status", "job_name", "source_path", "target_path", "file_size", "duration_ms", "details"]

  /** Names with commas between them. */
  function WithCommas(names: seq<string>): string {
    if names == [] then "" else if |names| == 1 then names[0] else names[0] + "," + WithCommas(names[1..])
  }

  const HEADER_LINE: string := WithCommas(HEADER) + "\n"

  // ---- writing ----

  predicate IsSpecial(c: char) {
    c == ',' || c == '"' || c == '\n' || c == '\r'
  }

  predicate HasSpecial(value: string) {
    exists c <- value :: IsSpecial(c)
  }

  /** Every quote doubled. */
  function Doubled(value: string): string {
    if value == "" then ""
    else (if value[0] == '"' then "\"\"" else [value[0]]) + Doubled(value[1..])
  }

  function CsvEscape(value: string): string {
    if HasSpecial(value) then "\"" + Doubled(value) + "\"" else value
  }

  /** The fields escaped and joined by commas. */
  function JoinedRow(fields: seq<string>): string {
    if fields == [] then ""
    else if |fields| == 1 then CsvEscape(fields[0])
    else CsvEscape(fields[0]) + "," + JoinedRow(fields[1..])
  }

  function Rows(entries: seq<AuditEntry>): string {
    if entries == [] then "" else JoinedRow(Fields(entries[0])) + "\n" + Rows(entries[1..])
  }

  method AuditEntriesToCsv(entries: seq<AuditEntry>) returns (out: string)
    ensures out == HEADER_LINE + Rows(entries)
  {
    out := HEADER_LINE;
    for i := 0 to |entries|
      invariant out + Rows(entries[i..]) == HEADER_LINE + Rows(entries)
    {
      TailTail(entries, i);
      var line := JoinedRow(Fields(entries[i])) + "\n";
      Assoc(out, line, Rows(entries[i + 1..]));
      Assoc(out, JoinedRow(Fields(entries[i])), "\n");
      out := out + JoinedRow(Fields(entries[i])) + "\n";
    }
  }

  // ---- reading ----

  /** The inside of a quoted field and what follows its closing quote. */
  function ReadQuoted(s: string): Option<(string, string)> {
    if s == "" then None
    else if s[0] != '"' then
      match ReadQuoted(s[1..])
      case None => None
      case Some((value, rest)) => Some(([s[0]] + value, rest))
    else if |s| > 1 && s[1] == '"' then
      match ReadQuoted(s[2..])
      case None => None
      case Some((value, rest)) => Some((['"'] + value, rest))
    else Some(("", s[1..]))
  }

  /** An unquoted field, which holds no quote and no carriage return, and what follows it. */
  function ReadPlain(s: string): Option<(string, string)> {
    if s == "" || s[0] == ',' || s[0] == '\n' then Some(("", s))
    else if IsSpecial(s[0]) then None
    else match ReadPlain(s[1..])
      case None => None
      case Some((value, rest)) => Some(([s[0]] + value, rest))
  }

  lemma {:induction false} QuotedShorter(s: string)
    ensures ReadQuoted(s).Some? ==> |ReadQuoted(s).value.1| < |s|
    decreases |s|
  {
    if s != "" && s[0] != '"' {
      QuotedShorter(s[1..]);
    } else if |s| > 1 && s[1] == '"' {
      QuotedShorter(s[2..]);
    }
  }

  lemma {:induction false} PlainShorter(s: string)
    ensures ReadPlain(s).Some? ==> |ReadPlain(s).value.1| <= |s|
    decreases |s|
  {
    if s != "" && !IsSpecial(s[0]) {
      PlainShorter(s[1..]);
    }
  }

  function ReadField(s: string): (r: Option<(string, string)>)
    ensures r.Some? ==> |r.value.1| <= |s|
  {
    if s != "" && s[0] == '"' then
      QuotedShorter(s[1..]);
      ReadQuoted(s[1..])
    else
      PlainShorter(s);
      ReadPlain(s)
  }

  /** One record up to its line break or the end of the text. */
  function ReadRecord(s: string): (r: Option<(seq<string>, string)>)
    ensures r.Some? && s != "" ==> |r.value.1| < |s|
    decreases |s|
  {
    match ReadField(s)
    case None => None
    case Some((value, rest)) =>
      if rest == "" then Some(([value], ""))
      else if rest[0] == '\n' then Some(([value], rest[1..]))
      else if rest[0] != ',' then None
      else match ReadRecord(rest[1..])
        case None => None
        case Some((values, after)) => Some(([value] + values, after))
  }

  function ReadCsv(s: string): Option<seq<seq<string>>>
    decreases |s|
  {
    if s == "" then Some([])
    else match ReadRecord(s)
      case None => None
      case Some((record, rest)) =>
        match ReadCsv(rest)
        case None => None
        case Some(records) => Some([record] + records)
  }

  // ---- reading back what was written ----

  predicate EndsField(rest: string) {
    rest == "" || rest[0] == ',' || rest[0] == '\n'
  }

  lemma {:induction false} QuotedBack(value: string, rest: string)
    requires EndsField(rest)
    ensures ReadQuoted(Doubled(value) + ("\"" + rest)) == Some((value, rest))
    decreases |value|
  {
    var s := Doubled(value) + ("\"" + rest);
    if value == "" {
      NilLeft("\"" + rest);
      assert s[1..] == rest;
    } else {
      var tail := Doubled(value[1..]) + ("\"" + rest);
      QuotedBack(value[1..], rest);
      HeadTail(value);
      if value[0] == '"' {
        Assoc("\"\"", Doubled(value[1..]), "\"" + rest);
        assert s[2..] == tail;
      } else {
        Assoc([value[0]], Doubled(value[1..]), "\"" + rest);
        assert s[1..] == tail;
      }
    }
  }

  lemma {:induction false} PlainBack(value: string, rest: string)
    requires !HasSpecial(value) && EndsField(rest)
    ensures ReadPlain(value + rest) == Some((value, rest))
    decreases |value|
  {
    if value == "" {
      NilLeft(rest);
    } else {
      assert value[0] in value && forall c <- value[1..] :: c in value;
      HeadTail(value);
      assert (value + rest)[1..] == value[1..] + rest;
      PlainBack(value[1..], rest);
    }
  }

  lemma FirstPlain(value: string, rest: string)
    requires !HasSpecial(value) && EndsField(rest)
    ensures var s := value + rest; s == "" || s[0] != '"'
  {
    if value != "" {
      assert value[0] in value;
    }
  }

  lemma QuotedParts(value: string, rest: string)
    requires HasSpecial(value)
    ensures var s := CsvEscape(value) + rest; s != "" && s[0] == '"' && s[1..] == Doubled(value) + ("\"" + rest)
  {
    var inner := Doubled(value) + ("\"" + rest);
    Assoc("\"", Doubled(value), "\"");
    Assoc("\"", Doubled(value) + "\"", rest);
    Assoc(Doubled(value), "\"", rest);
    Cons('"', inner);
  }

  lemma FieldOfQuoted(s: string)
    requires s != "" && s[0] == '"'
    ensures ReadField(s) == ReadQuoted(s[1..])
  {
  }

  lemma FieldOfPlain(s: string)
    requires s == "" || s[0] != '"'
    ensures ReadField(s) == ReadPlain(s)
  {
  }

  lemma FieldBack(value: string, rest: string)
    requires EndsField(rest)
    ensures ReadField(CsvEscape(value) + rest) == Some((value, rest))
  {
    if HasSpecial(value) {
      QuotedParts(value, rest);
      QuotedBack(value, rest);
      FieldOfQuoted(CsvEscape(value) + rest);
    } else {
      FirstPlain(value, rest);
      PlainBack(value, rest);
      FieldOfPlain(value + rest);
    }
  }

  lemma {:induction false} RecordBack(fields: seq<string>, rest: string)
    requires fields != []
    ensures ReadRecord(JoinedRow(fields) + ("\n" + rest)) == Some((fields, rest))
    decreases |fields|
  {
    var end := "\n" + rest;
    if |fields| == 1 {
      FieldBack(fields[0], end);
      Cons('\n', rest);
      assert [fields[0]] == fields;
    } else {
      var more := JoinedRow(fields[1..]) + end;
      RecordBack(fields[1..], rest);
      FieldBack(fields[0], "," + more);
      Assoc(CsvEscape(fields[0]) + ",", JoinedRow(fields[1..]), end);
      Assoc(CsvEscape(fields[0]), ",", more);
      Cons(',', more);
      HeadTail(fields);
    }
  }

  /** The fields of every entry. */
  function Records(entries: seq<AuditEntry>): seq<seq<string>> {
    if entries == [] then [] else [Fields(entries[0])] + Records(entries[1..])
  }

  lemma {:induction false} RowsBack(entries: seq<AuditEntry>)
    ensures ReadCsv(Rows(entries)) == Some(Records(entries))
    decreases |entries|
  {
    if entries != [] {
      var fields := Fields(entries[0]);
      var rest := Rows(entries[1..]);
      RowsBack(entries[1..]);
      RecordBack(fields, rest);
      Assoc(JoinedRow(fields), "\n", rest);
      RowNotEmpty(entries);
    }
  }

  lemma RowNotEmpty(entries: seq<AuditEntry>)
    requires entries != []
    ensures Rows(entries) != ""
  {
  }

  /** Names without special characters need no escaping. */
  lemma {:induction false} PlainRow(names: seq<string>)
    requires forall i :: 0 <= i < |names| ==> !HasSpecial(names[i])
    ensures JoinedRow(names) == WithCommas(names)
    decreases |names|
  {
    if |names| > 1 {
      PlainRow(names[1..]);
    }
  }

  lemma HeaderIsPlain()
    ensures forall i :: 0 <= i < |HEADER| ==> !HasSpecial(HEADER[i])
  {
  }

  /** Reading the export back gives the header and the nine fields of every entry, whatever text the
      fields hold. */
  lemma ExportReadsBack(entries: seq<AuditEntry>)
    ensures ReadCsv(HEADER_LINE + Rows(entries))
            == Some([HEADER] + Records(entries))
  {
    HeaderIsPlain();
    PlainRow(HEADER);
    RowsBack(entries);
    RecordBack(HEADER, Rows(entries));
    Assoc(JoinedRow(HEADER), "\n", Rows(entries));
  }

  /** The number a field printed with its sign stands for. */
  function SignedOf(field: string): int {
    if field != "" && field[0] == '-' then -NumberOf(field[1..]) else NumberOf(field)
  }

  lemma SignedBack(n: int)
    ensures SignedOf(Signed(n)) == n
  {
    DecimalBack(if n < 0 then -n else n);
    if n < 0 {
      assert ("-" + Decimal(-n))[1..] == Decimal(-n);
    } else {
      assert Decimal(n)[0] in Decimal(n);
    }
  }

  /** What stands in each column of an entry's row. */
  predicate InColumns(row: seq<string>, e: AuditEntry) {
    && |row| == 9 && SignedOf(row[0]) == e.id && row[1] == e.createdAt && row[3] == e.jobName
    && row[4] == e.sourcePath && row[5] == e.targetPath && SignedOf(row[6]) == e.fileSize
    && row[7] == e.durationMs && row[8] == (match e.details case None => "" case Some(text) => text)
    && row[2] == match e.status
                 case Copied => "COPIED"
                 case Moved => "MOVED"
                 case Ignored => "IGNORED"
                 case Failed => "FAILED"
                 case Organized => "ORGANIZED"
                 case RolledBack => "ROLLEDBACK"
  }

  lemma FieldsInColumns(e: AuditEntry)
    ensures InColumns(Fields(e), e)
  {
    SignedBack(e.id);
    SignedBack(e.fileSize);
  }

  /** A field is quoted exactly when it holds a comma, a quote or a line break. */
  lemma EscapeMeaning(value: string)
    ensures var plain := forall c <- value :: c != ',' && c != '"' && c != '\n' && c != '\r';
            && (plain ==> CsvEscape(value) == value)
            && (!plain ==> var line := CsvEscape(value); |line| >= 2 && line[0] == '"' && line[|line| - 1] == '"')
  {
  }

  /** The reader gets the names of the columns and, under them, what each entry holds. */
  lemma ColumnsReadBack(entries: seq<AuditEntry>, k: nat)
    requires k < |entries|
    ensures ReadCsv(HEADER_LINE + Rows(entries)).Some?
    ensures var records := ReadCsv(HEADER_LINE + Rows(entries)).value;
            && |records| == |entries| + 1 && InColumns(records[k + 1], entries[k])
            && records[0] == ["id", "created_at", "status", "job_name", "source_path", "target_path", "file_size", "duration_ms", "details"]
  {
    ExportReadsBack(entries);
    RecordsAt(entries, k);
    FieldsInColumns(entries[k]);
    assert ([HEADER] + Records(entries))[k + 1] == Records(entries)[k];
  }

  lemma {:induction false} RecordsAt(entries: seq<AuditEntry>, k: nat)
    requires k < |entries|
    ensures |Records(entries)| == |entries| && Records(entries)[k] == Fields(entries[k])
    decreases |entries|
  {
    if k > 0 {
      RecordsAt(entries[1..], k - 1);
    } else if |entries| > 1 {
      RecordsAt(entries[1..], 0);
    }
  }
}
