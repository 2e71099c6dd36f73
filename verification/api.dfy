/** The frontend's client of the backend (services/api.ts): the CSV export
    of the log table and the query parameters of the two backend calls. The
    CSV text is read back by a reader that follows the usual quoting rules
    (a field that starts with a quote runs to the next lone quote, `""`
    inside it standing for `"`), which shows what the export preserves. */
module Api {
  import opened Common
  import opened Logs

  // ---------------------------------------------------------------------
  // Numbers and booleans as `join` prints them

  function DigitChar(d: nat): (c: char)
    requires d < 10
    ensures IsDigit(c) && DigitValue(c) == d
  {
    ('0' as int + d) as char
  }

  /** `String(n)` for a non-negative integer: its decimal digits. */
  function NatToString(n: nat): (r: string)
    ensures r != [] && forall i :: 0 <= i < |r| ==> IsDigit(r[i])
    decreases n
  {
    if n < 10 then [DigitChar(n)] else NatToString(n / 10) + [DigitChar(n % 10)]
  }

  /** The value of a string of decimal digits. */
  function DigitsValue(s: string): nat
    requires forall i :: 0 <= i < |s| ==> IsDigit(s[i])
  {
    if s == [] then 0 else 10 * DigitsValue(s[..|s| - 1]) + DigitValue(s[|s| - 1])
  }

  lemma {:induction false} NatToStringValue(n: nat)
    ensures DigitsValue(NatToString(n)) == n
    decreases n
  {
    if n >= 10 {
      var r := NatToString(n);
      assert r[..|r| - 1] == NatToString(n / 10);
      NatToStringValue(n / 10);
    }
  }

  /** `String(i)` for an integer. */
  function IntToString(i: int): string
  {
    if i < 0 then "-" + NatToString(-i) else NatToString(i)
  }

  /** The integer a string of the form `IntToString` produces denotes. */
  function IntValue(s: string): int
    requires s != [] && forall i :: 0 < i < |s| ==> IsDigit(s[i])
    requires s[0] == '-' || IsDigit(s[0])
  {
    if s[0] == '-' then -(DigitsValue(s[1..]) as int) else DigitsValue(s)
  }

  /** Printing an integer loses nothing, and the text is a sign and digits:
      no comma, newline or quote. */
  lemma IntToStringValue(i: int)
    ensures var s := IntToString(i);
      && s != [] && (s[0] == '-' || IsDigit(s[0])) && (forall k :: 0 < k < |s| ==> IsDigit(s[k]))
      && IntValue(s) == i
  {
    var s := IntToString(i);
    if i < 0 {
      assert s[1..] == NatToString(-i);
      NatToStringValue(-i);
    } else {
      NatToStringValue(i);
    }
  }

  function BoolToString(b: bool): string
  {
    if b then "true" else "false"
  }

  // ---------------------------------------------------------------------
  // downloadLogsAsCSV

  const Headers: seq<string> := [
    "LineId", "logs", "ip_address", "date", "time", "log_type",
    "auth_failures_last_1h", "time_since_last_failure", "is_root_attempt",
    "unique_users_attempted", "anomaly_detected", "device_id"]

  /** A field of the export: written as it is, or wrapped in quotes. */
  datatype Cell = Plain(text: string) | Quoted(text: string)

  /** `s.replace(/"/g, '""')` */
  function DoubleQuotes(s: string): string
  {
    if s == [] then [] else (if s[0] == '"' then "\"\"" else [s[0]]) + DoubleQuotes(s[1..])
  }

  function Encode(c: Cell): string
  {
    match c
    case Plain(s) => s
    case Quoted(s) => "\"" + DoubleQuotes(s) + "\""
  }

  function EncodeAll(cells: seq<Cell>): seq<string>
  {
    if cells == [] then [] else [Encode(cells[0])] + EncodeAll(cells[1..])
  }

  function EncodeRecord(cells: seq<Cell>): string
  {
    Join(EncodeAll(cells), ",")
  }

  /** The fields of one log, in column order: only `logs` is quoted, and an
      absent `device_id` is the empty string. */
  function Cells(l: AnomalyLog): seq<Cell>
  {
    [Plain(IntToString(l.lineId)), Quoted(l.logs), Plain(l.ipAddress), Plain(l.date), Plain(l.time),
     Plain(l.logType), Plain(IntToString(l.authFailuresLast1h)), Plain(IntToString(l.timeSinceLastFailure)),
     Plain(BoolToString(l.isRootAttempt)), Plain(IntToString(l.uniqueUsersAttempted)),
     Plain(BoolToString(l.anomalyDetected)), Plain(OrElse(l.deviceId, ""))]
  }

  function CsvRow(l: AnomalyLog): string
  {
    EncodeRecord(Cells(l))
  }

  function CsvRows(logs: seq<AnomalyLog>): seq<string>
  {
    if logs == [] then [] else [CsvRow(logs[0])] + CsvRows(logs[1..])
  }

  /** The text of the downloaded file: the header line, then one line per
      log in the given order, joined by newlines. */
  function ToCsv(logs: seq<AnomalyLog>): string
  {
    CsvText(Headers, logs)
  }

  /** The header line, then one line per log, joined by newlines. */
  function CsvText(header: seq<string>, logs: seq<AnomalyLog>): string
  {
    Join([Join(header, ",")] + CsvRows(logs), "\n")
  }

  // ---------------------------------------------------------------------
  // Reading the text back

  predicate IsDelimiter(c: char) { c == ',' || c == '\n' }

  /** A quoted field after its opening quote: `""` stands for `"` and a lone
      `"` closes the field. The text, and what follows the closing quote. */
  function ReadQuoted(t: string): (r: (string, string))
    ensures |r.1| < |t| || r.1 == []
    decreases |t|
  {
    if t == [] then ([], [])
    else if t[0] == '"' then
      if |t| >= 2 && t[1] == '"' then
        var r := ReadQuoted(t[2..]);
        ("\"" + r.0, r.1)
      else ([], t[1..])
    else
      var r := ReadQuoted(t[1..]);
      ([t[0]] + r.0, r.1)
  }

  /** An unquoted field: everything up to the next comma or newline. */
  function ReadPlain(t: string): (r: (string, string))
    ensures |r.1| <= |t| && (r.1 == [] || IsDelimiter(r.1[0]))
    decreases |t|
  {
    if t == [] || IsDelimiter(t[0]) then ([], t)
    else
      var r := ReadPlain(t[1..]);
      ([t[0]] + r.0, r.1)
  }

  function ReadField(t: string): (r: (string, string))
    ensures |r.1| <= |t|
    ensures |r.1| < |t| || r.1 == [] || IsDelimiter(r.1[0])
  {
    if t != [] && t[0] == '"' then ReadQuoted(t[1..]) else ReadPlain(t)
  }

  /** One record: fields separated by commas, up to a newline (consumed) or
      the end of the text. */
  function ReadRecord(t: string): (r: (seq<string>, string))
    ensures |r.1| <= |t| && (t != [] ==> |r.1| < |t|)
    decreases |t|
  {
    var f := ReadField(t);
    if f.1 != [] && f.1[0] == ',' then
      var rest := ReadRecord(f.1[1..]);
      ([f.0] + rest.0, rest.1)
    else if f.1 != [] && f.1[0] == '\n' then ([f.0], f.1[1..])
    else ([f.0], f.1)
  }

  /** The records of a CSV text. */
  function ReadCsv(t: string): seq<seq<string>>
    decreases |t|
  {
    if t == [] then [] else var r := ReadRecord(t); [r.0] + ReadCsv(r.1)
  }

  // ---------------------------------------------------------------------
  // What the export preserves

  /** The closing quote is found where the doubled text ends, and the text
      is recovered. */
  lemma {:induction false} ReadQuotedDoubled(s: string, rest: string)
    requires rest == [] || rest[0] != '"'
    ensures ReadQuoted(DoubleQuotes(s) + "\"" + rest) == (s, rest)
  {
    var t := DoubleQuotes(s) + "\"" + rest;
    if s == [] {
      assert t == "\"" + rest;
      assert t[1..] == rest;
    } else {
      var tail := DoubleQuotes(s[1..]) + "\"" + rest;
      ReadQuotedDoubled(s[1..], rest);
      if s[0] == '"' {
        assert t == "\"\"" + tail;
        assert t[2..] == tail;
      } else {
        assert t == [s[0]] + tail;
        assert t[1..] == tail;
      }
      assert s == [s[0]] + s[1..];
    }
  }

  /** A field written as it is must hold no comma or newline and must not
      start with a quote, or it reads back differently. */
  predicate PlainSafe(s: string)
  {
    (forall i :: 0 <= i < |s| ==> !IsDelimiter(s[i])) && (s == [] || s[0] != '"')
  }

  predicate CellSafe(c: Cell) { c.Quoted? || PlainSafe(c.text) }

  lemma {:induction false} ReadPlainUntil(s: string, rest: string)
    requires forall i :: 0 <= i < |s| ==> !IsDelimiter(s[i])
    requires rest == [] || IsDelimiter(rest[0])
    ensures ReadPlain(s + rest) == (s, rest)
  {
    if s == [] {
      assert s + rest == rest;
    } else {
      assert (s + rest)[1..] == s[1..] + rest;
      ReadPlainUntil(s[1..], rest);
      assert s == [s[0]] + s[1..];
    }
  }

  lemma ReadFieldEncoded(c: Cell, rest: string)
    requires CellSafe(c)
    requires rest == [] || IsDelimiter(rest[0])
    ensures ReadField(Encode(c) + rest) == (c.text, rest)
  {
    match c
    case Plain(s) =>
      ReadPlainUntil(s, rest);
    case Quoted(s) =>
      var t := Encode(c) + rest;
      assert t[1..] == DoubleQuotes(s) + "\"" + rest;
      ReadQuotedDoubled(s, rest);
  }

  function Texts(cells: seq<Cell>): seq<string>
  {
    if cells == [] then [] else [cells[0].text] + Texts(cells[1..])
  }

  /** A record of safe cells reads back as their texts, the newline that
      ends it consumed. */
  lemma {:induction false} ReadRecordEncoded(cells: seq<Cell>, rest: string)
    requires cells != [] && forall i :: 0 <= i < |cells| ==> CellSafe(cells[i])
    requires rest == [] || rest[0] == '\n'
    ensures ReadRecord(EncodeRecord(cells) + rest) == (Texts(cells), if rest == [] then [] else rest[1..])
  {
    if |cells| == 1 {
      assert cells[1..] == [];
      assert EncodeRecord(cells) == Encode(cells[0]) by {
        assert EncodeAll(cells) == [Encode(cells[0])];
      }
      assert Texts(cells) == [cells[0].text];
      ReadFieldEncoded(cells[0], rest);
    } else {
      var tail := EncodeRecord(cells[1..]) + rest;
      assert EncodeRecord(cells) + rest == Encode(cells[0]) + ("," + tail) by {
        assert EncodeAll(cells)[1..] == EncodeAll(cells[1..]);
      }
      ReadRecordStep(cells[0], tail);
      ReadRecordEncoded(cells[1..], rest);
      assert Texts(cells) == [cells[0].text] + Texts(cells[1..]);
    }
  }

  lemma ReadRecordStep(c: Cell, tail: string)
    requires CellSafe(c)
    ensures ReadRecord(Encode(c) + ("," + tail)) == ([c.text] + ReadRecord(tail).0, ReadRecord(tail).1)
  {
    ReadFieldEncoded(c, "," + tail);
    assert ("," + tail)[1..] == tail;
  }

  function EncodeRecords(records: seq<seq<Cell>>): seq<string>
  {
    if records == [] then [] else [EncodeRecord(records[0])] + EncodeRecords(records[1..])
  }

  function AllTexts(records: seq<seq<Cell>>): seq<seq<string>>
  {
    if records == [] then [] else [Texts(records[0])] + AllTexts(records[1..])
  }

  /** Records of at least two safe cells, joined by newlines, read back as
      their texts. */
  lemma {:induction false} ReadCsvEncoded(records: seq<seq<Cell>>)
    requires forall r :: r in records ==> |r| >= 2 && forall i :: 0 <= i < |r| ==> CellSafe(r[i])
    ensures ReadCsv(Join(EncodeRecords(records), "\n")) == AllTexts(records)
  {
    if records != [] {
      var first := EncodeRecord(records[0]);
      assert first != [] by {
        assert EncodeAll(records[0])[1..] == EncodeAll(records[0][1..]);
        assert first == Encode(records[0][0]) + "," + EncodeRecord(records[0][1..]);
      }
      if |records| == 1 {
        assert Join(EncodeRecords(records), "\n") == first + [];
        ReadRecordEncoded(records[0], []);
      } else {
        var rest := Join(EncodeRecords(records[1..]), "\n");
        assert EncodeRecords(records)[1..] == EncodeRecords(records[1..]);
        assert Join(EncodeRecords(records), "\n") == first + ("\n" + rest);
        ReadRecordEncoded(records[0], "\n" + rest);
        assert ("\n" + rest)[1..] == rest;
        forall r | r in records[1..] ensures |r| >= 2 && forall i :: 0 <= i < |r| ==> CellSafe(r[i]) {
          assert r in records;
        }
        ReadCsvEncoded(records[1..]);
      }
    }
  }

  function PlainAll(names: seq<string>): seq<Cell>
  {
    if names == [] then [] else [Plain(names[0])] + PlainAll(names[1..])
  }

  function CellsOf(logs: seq<AnomalyLog>): seq<seq<Cell>>
  {
    if logs == [] then [] else [Cells(logs[0])] + CellsOf(logs[1..])
  }

  lemma {:induction false} PlainAllEncodes(names: seq<string>)
    ensures EncodeAll(PlainAll(names)) == names && Texts(PlainAll(names)) == names && |PlainAll(names)| == |names|
    ensures forall i :: 0 <= i < |names| ==> PlainAll(names)[i] == Plain(names[i])
  {
    if names != [] {
      PlainAllEncodes(names[1..]);
    }
  }

  lemma {:induction false} CellsOfEncodes(logs: seq<AnomalyLog>)
    ensures EncodeRecords(CellsOf(logs)) == CsvRows(logs) && |CellsOf(logs)| == |logs|
    ensures forall i :: 0 <= i < |logs| ==> CellsOf(logs)[i] == Cells(logs[i])
    ensures AllTexts(CellsOf(logs)) == FieldsOf(logs)
  {
    if logs != [] {
      CellsOfEncodes(logs[1..]);
      TextsOfCells(logs[0]);
    }
  }

  /** The texts a log contributes to its line, in column order. */
  function Fields(l: AnomalyLog): seq<string>
  {
    [IntToString(l.lineId), l.logs, l.ipAddress, l.date, l.time, l.logType,
     IntToString(l.authFailuresLast1h), IntToString(l.timeSinceLastFailure), BoolToString(l.isRootAttempt),
     IntToString(l.uniqueUsersAttempted), BoolToString(l.anomalyDetected), OrElse(l.deviceId, "")]
  }

  function FieldsOf(logs: seq<AnomalyLog>): (r: seq<seq<string>>)
    ensures |r| == |logs|
  {
    if logs == [] then [] else [Fields(logs[0])] + FieldsOf(logs[1..])
  }

  lemma TextsOfCells(l: AnomalyLog)
    ensures Texts(Cells(l)) == Fields(l)
  {
    TextsIndex(Cells(l));
  }

  lemma {:induction false} TextsIndex(cells: seq<Cell>)
    ensures |Texts(cells)| == |cells| && forall i :: 0 <= i < |cells| ==> Texts(cells)[i] == cells[i].text
  {
    if cells != [] {
      TextsIndex(cells[1..]);
    }
  }

  /** The fields other than `logs` that a log writes unquoted can be read
      back when they hold no comma or newline and do not start with a quote;
      the numbers and booleans always can. */
  predicate CsvSafe(l: AnomalyLog)
  {
    PlainSafe(l.ipAddress) && PlainSafe(l.date) && PlainSafe(l.time) && PlainSafe(l.logType)
    && PlainSafe(OrElse(l.deviceId, ""))
  }

  lemma IntToStringSafe(i: int)
    ensures PlainSafe(IntToString(i))
  {
    IntToStringValue(i);
  }

  lemma CellsSafe(l: AnomalyLog)
    requires CsvSafe(l)
    ensures forall i :: 0 <= i < |Cells(l)| ==> CellSafe(Cells(l)[i])
  {
    IntToStringSafe(l.lineId);
    IntToStringSafe(l.authFailuresLast1h);
    IntToStringSafe(l.timeSinceLastFailure);
    IntToStringSafe(l.uniqueUsersAttempted);
  }

  /** The file is the header and the logs' cells encoded record by record. */
  function Records(header: seq<string>, logs: seq<AnomalyLog>): seq<seq<Cell>>
  {
    [PlainAll(header)] + CellsOf(logs)
  }

  lemma CsvTextRecords(header: seq<string>, logs: seq<AnomalyLog>)
    ensures CsvText(header, logs) == Join(EncodeRecords(Records(header, logs)), "\n")
    ensures AllTexts(Records(header, logs)) == [header] + FieldsOf(logs)
  {
    var records := Records(header, logs);
    PlainAllEncodes(header);
    CellsOfEncodes(logs);
    assert records[1..] == CellsOf(logs);
  }

  lemma WordSafe(s: string)
    requires forall k :: 0 <= k < |s| ==> IsWordChar(s[k])
    ensures PlainSafe(s)
  {
  }

  /** The column names are words, so they are written and read back as
      they are. */
  lemma HeadersSafe()
    ensures |Headers| == 12 && forall i :: 0 <= i < |Headers| ==> PlainSafe(Headers[i])
  {
    forall i | 0 <= i < |Headers| ensures PlainSafe(Headers[i]) {
      WordSafe(Headers[i]);
    }
  }

  lemma RecordsSafe(header: seq<string>, logs: seq<AnomalyLog>)
    requires |header| >= 2 && forall i :: 0 <= i < |header| ==> PlainSafe(header[i])
    requires forall i :: 0 <= i < |logs| ==> CsvSafe(logs[i])
    ensures forall r :: r in Records(header, logs) ==> |r| >= 2 && forall i :: 0 <= i < |r| ==> CellSafe(r[i])
  {
    PlainAllEncodes(header);
    CellsOfEncodes(logs);
    forall r | r in Records(header, logs) ensures |r| >= 2 && forall i :: 0 <= i < |r| ==> CellSafe(r[i]) {
      if r != PlainAll(header) {
        assert r in CellsOf(logs);
        var k :| 0 <= k < |CellsOf(logs)| && CellsOf(logs)[k] == r;
        CellsSafe(logs[k]);
      }
    }
  }

  /** Read back, the file is the header record followed by one record of
      twelve fields per log, in order, whatever the `logs` texts hold
      (commas, quotes and newlines included): the quoting of `logs` loses
      nothing. */
  lemma ToCsvReadsBack(logs: seq<AnomalyLog>)
    requires forall i :: 0 <= i < |logs| ==> CsvSafe(logs[i])
    ensures var rows := ReadCsv(ToCsv(logs));
      && |rows| == |logs| + 1
      && rows[0] == Headers
      && forall i :: 0 <= i < |logs| ==> rows[i + 1] == Fields(logs[i])
  {
    HeadersSafe();
    CsvTextReadsBack(Headers, logs);
    RowsShape(ReadCsv(ToCsv(logs)), Headers, logs);
  }

  lemma RowsShape(rows: seq<seq<string>>, header: seq<string>, logs: seq<AnomalyLog>)
    requires rows == [header] + FieldsOf(logs)
    ensures |rows| == |logs| + 1 && rows[0] == header
    ensures forall i :: 0 <= i < |logs| ==> rows[i + 1] == Fields(logs[i])
  {
    FieldsOfIndex(logs);
    forall i | 0 <= i < |logs|
      ensures rows[i + 1] == Fields(logs[i])
    {
      assert rows[i + 1] == FieldsOf(logs)[i];
    }
  }

  lemma CsvTextReadsBack(header: seq<string>, logs: seq<AnomalyLog>)
    requires |header| >= 2 && forall i :: 0 <= i < |header| ==> PlainSafe(header[i])
    requires forall i :: 0 <= i < |logs| ==> CsvSafe(logs[i])
    ensures ReadCsv(CsvText(header, logs)) == [header] + FieldsOf(logs)
  {
    CsvTextRecords(header, logs);
    RecordsSafe(header, logs);
    ReadCsvEncoded(Records(header, logs));
  }

  lemma {:induction false} FieldsOfIndex(logs: seq<AnomalyLog>)
    ensures |FieldsOf(logs)| == |logs|
    ensures forall i :: 0 <= i < |logs| ==> FieldsOf(logs)[i] == Fields(logs[i])
  {
    if logs != [] {
      FieldsOfIndex(logs[1..]);
    }
  }

  // ---------------------------------------------------------------------
  // Requests

  /** A request to the backend: HTTP method, path, and the query parameters in
      the order they were appended. */
  datatype Request = Request(verb: string, path: string, query: seq<(string, string)>)

  /** What the client reads of a response: whether it is ok, and its body. */
  datatype Response<T> = Response(ok: bool, body: T)

  /** `fetchAdminLogsSummary(admin_id, device_id)` answered by `reply`:
      `admin_id` is always sent, first; `device_id` after it, only when it
      is a non-empty string; a response that is not ok throws. */
  method FetchAdminLogsSummary<T>(adminId: string, deviceId: Option<string>, reply: Response<T>)
    returns (req: Request, r: Result<T>)
    ensures req.verb == "GET" && req.path == "/admin/logs_summary"
    ensures |req.query| >= 1 && req.query[0] == ("admin_id", adminId)
    ensures Truthy(deviceId) ==> req.query == [("admin_id", adminId), ("device_id", deviceId.value)]
    ensures !Truthy(deviceId) ==> |req.query| == 1
    ensures reply.ok ==> r == Ok(reply.body)
    ensures !reply.ok ==> r == Err("Failed to fetch logs")
  {
    var params: seq<(string, string)> := [];
    params := params + [("admin_id", adminId)];
    if Truthy(deviceId) {
      params := params + [("device_id", deviceId.value)];
    }
    req := Request("GET", "/admin/logs_summary", params);
    if !reply.ok {
      return req, Err("Failed to fetch logs");
    }
    r := Ok(reply.body);
  }

  /** `sendWarningEmail(deviceId, logLine)` answered by `reply`: a POST with
      `device_id` then `log_line` as query parameters; a response that is
      not ok throws. */
  method SendWarningEmail<T>(deviceId: string, logLine: string, reply: Response<T>)
    returns (req: Request, r: Result<T>)
    ensures req.verb == "POST" && req.path == "/send_warning"
    ensures |req.query| == 2 && req.query[0] == ("device_id", deviceId) && req.query[1] == ("log_line", logLine)
    ensures reply.ok ==> r == Ok(reply.body)
    ensures !reply.ok ==> r == Err("Failed to send warning email")
  {
    var params: seq<(string, string)> := [];
    params := params + [("device_id", deviceId)];
    params := params + [("log_line", logLine)];
    req := Request("POST", "/send_warning", params);
    if !reply.ok {
      return req, Err("Failed to send warning email");
    }
    r := Ok(reply.body);
  }
}
