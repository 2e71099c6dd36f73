/** The meaning of the `ingest_logs` endpoint (backend/app.py): split the
    posted text into lines, classify each line in order, build one row per
    line, send a warning for each anomalous line, and insert the rows in one
    batch at the end. */
module Ingest {
  import opened Common
  import opened Extract
  import opened Classifier

  /** A row of `log_table`. `ip_address`, `log_date` and `log_time` may be
      Python `None`. */
  datatype Row = Row(
    logs: string,
    ipAddress: Option<string>,
    logDate: Option<string>,
    logTime: Option<string>,
    logType: string,
    anomalyDetected: string,
    deviceId: string)

  /** A call of `send_warning_email(device_id, log_line)`. */
  datatype Warning = Warning(deviceId: string, logLine: string)

  // ---------------------------------------------------------------------
  // str.split() with no argument

  predicate IsPySpace(c: char)
  {
    c == ' ' || ('\t' <= c <= '\r') || ('\U{001C}' <= c <= '\U{001F}') || c == '\U{0085}' || c == '\U{00A0}'
    || c == '\U{1680}' || ('\U{2000}' <= c <= '\U{200A}') || c == '\U{2028}' || c == '\U{2029}'
    || c == '\U{202F}' || c == '\U{205F}' || c == '\U{3000}'
  }

  /** End of the run of non-space characters starting at `i`. */
  function TokenEnd(s: string, i: nat): (e: nat)
    requires i <= |s|
    ensures i <= e <= |s| && (e == |s| || IsPySpace(s[e]))
    ensures forall k :: i <= k < e ==> !IsPySpace(s[k])
    decreases |s| - i
  {
    if i < |s| && !IsPySpace(s[i]) then TokenEnd(s, i + 1) else i
  }

  /** Python's `s.split()`: the maximal runs of non-space characters. */
  function PySplit(s: string): (tokens: seq<string>)
    ensures forall t :: t in tokens ==> t != []
    decreases |s|
  {
    if s == [] then []
    else if IsPySpace(s[0]) then PySplit(s[1..])
    else
      var e := TokenEnd(s, 0);
      [s[..e]] + PySplit(s[e..])
  }

  /** A leading space is skipped. */
  lemma SplitSkipsSpace(s: string)
    requires s != [] && IsPySpace(s[0])
    ensures PySplit(s) == PySplit(s[1..])
  {
  }

  /** A leading run of `n` non-space characters ended by a space or by the
      end of the string is the first token. */
  lemma SplitTakesToken(s: string, n: nat)
    requires 0 < n <= |s| && (n == |s| || IsPySpace(s[n]))
    requires forall k :: 0 <= k < n ==> !IsPySpace(s[k])
    ensures PySplit(s) == [s[..n]] + PySplit(s[n..])
  {
    assert TokenEnd(s, 0) == n;
  }

  /** A timestamp splits into its month name, its day and its clock time. */
  lemma StampTokens(p: string)
    requires IsStamp(p)
    ensures PySplit(p) == [p[..3], p[4..|p| - 9], p[|p| - 8..]]
  {
    var d := |p| - 9;
    MonthToken(p);
    assert p[3..][1..] == p[4..];
    SplitSkipsSpace(p[3..]);
    DayToken(p);
    assert p[d..][1..] == p[d + 1..];
    SplitSkipsSpace(p[d..]);
    ClockToken(p);
  }

  lemma MonthToken(p: string)
    requires IsStamp(p)
    ensures PySplit(p) == [p[..3]] + PySplit(p[3..])
  {
    assert IsPySpace(p[3]);
    SplitTakesToken(p, 3);
  }

  lemma DayToken(p: string)
    requires IsStamp(p)
    ensures PySplit(p[4..]) == [p[4..|p| - 9]] + PySplit(p[|p| - 9..])
  {
    var r, n := p[4..], |p| - 13;
    assert r[n] == p[|p| - 9] == ' ';
    assert forall k :: 0 <= k < n ==> r[k] == p[4 + k] && IsDigit(p[4 + k]);
    SplitTakesToken(r, n);
    assert r[..n] == p[4..|p| - 9] && r[n..] == p[|p| - 9..];
  }

  lemma ClockToken(p: string)
    requires IsStamp(p)
    ensures PySplit(p[|p| - 8..]) == [p[|p| - 8..]]
  {
    var r := p[|p| - 8..];
    assert ClockAt(p, |p| - 8);
    assert forall k :: 0 <= k < 8 ==> r[k] == p[|p| - 8 + k];
    assert forall k :: 0 <= k < 8 ==> IsDigit(r[k]) || r[k] == ':';
    SplitTakesToken(r, 8);
    assert r[..8] == r && r[8..] == [];
  }

  // ---------------------------------------------------------------------
  // Row construction

  /** The `log_date` and `log_time` of a row, as line 145 of the source
      computes them: `dt.split()[0]` is evaluated whether or not a timestamp
      was found (the conditional binds only to the second element of the
      tuple), so a line without a timestamp raises `IndexError`. With a
      timestamp, the two fields are its first and second tokens. */
  const IndexError := "IndexError: list index out of range"

  function RowDateTime(line: string): (r: Result<(string, string)>)
    ensures r.Err? <==> ExtractDatetime(line).None?
    ensures r.Ok? ==> var p := ExtractDatetime(line).value;
      r.value == (p[..3], p[4..|p| - 9])
  {
    var dt := if ExtractDatetime(line).Some? then ExtractDatetime(line).value else "";
    var tokens := PySplit(dt);
    assert dt != "" ==> tokens == [dt[..3], dt[4..|dt| - 9], dt[|dt| - 8..]] by {
      if dt != "" { StampTokens(dt); }
    }
    if |tokens| < 2 then Err(IndexError)
    else Ok((tokens[0], tokens[1]))
  }

  /** A line without a timestamp makes the row construction raise. */
  lemma MissingStampRaises()
    ensures RowDateTime("Failed password for root").Err?
  {
    var line := "Failed password for root";
    assert !IsStamp(line[..15]) && !IsStamp(line[..14]) by {
      assert line[3] != ' ';
    }
  }

  /** The row fields as evidently intended: a line without a timestamp gets
      no date and no time instead of aborting the whole batch. */
  function RowDateTimeIntended(line: string): (r: (Option<string>, Option<string>))
    ensures r.0.None? <==> ExtractDatetime(line).None?
    ensures r.1.None? <==> ExtractDatetime(line).None?
    ensures RowDateTime(line).Ok? ==> r == (Some(RowDateTime(line).value.0), Some(RowDateTime(line).value.1))
  {
    var dt := ExtractDatetime(line);
    if dt.Some? then
      StampTokens(dt.value);
      var tokens := PySplit(dt.value);
      (Some(tokens[0]), Some(tokens[1]))
    else (None, None)
  }

  // ---------------------------------------------------------------------
  // The endpoint

  /** The state of a run of `ingest_logs` after some lines: the collections,
      the rows built so far, the warnings sent so far, and the exception that
      stopped it, if any. */
  datatype Run = Run(stores: Stores, rows: seq<Row>, outbox: seq<Warning>, error: Option<string>)

  /** One iteration of the loop: classify, build the row, append it and send
      a warning for an anomalous line. An exception stops the run with the
      collections as they are at that point. The date and time of the row
      are the month and day tokens of the timestamp, which is what
      `RowDateTime` computes, and a missing timestamp is its `IndexError`. */
  function IngestStep(r: Run, line: string, device: string, now: int): Run
  {
    if r.error.Some? then r
    else
      match Classify(r.stores, line, now)
      case Raised => r.(error := Some("ValueError: time data does not match format"))
      case Classified(v, s) =>
        match ExtractDatetime(line)
        case None => Run(s, r.rows, r.outbox, Some(IndexError))
        case Some(p) =>
          var row := Row(line, ExtractIp(line), Some(p[..3]), Some(p[4..|p| - 9]), v.logType, v.anomaly, device);
          var sent := if v.anomaly == "Yes" then [Warning(device, line)] else [];
          Run(s, r.rows + [row], r.outbox + sent, None)
  }

  /** The run over `lines`, the `i`-th line classified at clock reading
      `clock(i)`. */
  function IngestLines(s: Stores, lines: seq<string>, device: string, clock: nat -> int): Run
  {
    if lines == [] then Run(s, [], [], None)
    else IngestStep(IngestLines(s, lines[..|lines| - 1], device, clock), lines[|lines| - 1], device, clock(|lines| - 1))
  }

  /** The run over one more line is one more step. */
  lemma IngestLinesSnoc(s: Stores, lines: seq<string>, i: nat, device: string, clock: nat -> int)
    requires i < |lines|
    ensures IngestLines(s, lines[..i + 1], device, clock)
      == IngestStep(IngestLines(s, lines[..i], device, clock), lines[i], device, clock(i))
  {
    assert lines[..i + 1][..i] == lines[..i];
  }

  /** Extending a run that has not raised by the step of line `i`: the run
      over one more line, or, if the step raised, the run over all lines. */
  lemma Advance(s: Stores, lines: seq<string>, i: nat, device: string, clock: nat -> int, before: Run, after: Run)
    requires i < |lines|
    requires IngestLines(s, lines[..i], device, clock) == before && before.error.None?
    requires IngestStep(before, lines[i], device, clock(i)) == after
    ensures after.error.None? ==> IngestLines(s, lines[..i + 1], device, clock) == after
    ensures after.error.Some? ==> IngestLines(s, lines, device, clock) == after
  {
    IngestLinesSnoc(s, lines, i, device, clock);
    if after.error.Some? {
      ErrorSticks(s, lines, i + 1, device, clock);
    }
  }

  /** The three outcomes of a step from a run that has not raised, stated
      through `RowDateTime`. */
  lemma StepOutcome(r: Run, line: string, device: string, now: int)
    requires r.error.None?
    ensures Classify(r.stores, line, now).Raised? ==>
      IngestStep(r, line, device, now) == r.(error := Some("ValueError: time data does not match format"))
    ensures Classify(r.stores, line, now).Classified? && RowDateTime(line).Err? ==>
      IngestStep(r, line, device, now) == Run(Classify(r.stores, line, now).stores, r.rows, r.outbox, Some(RowDateTime(line).msg))
    ensures Classify(r.stores, line, now).Classified? && RowDateTime(line).Ok? ==>
      var v, dateTime := Classify(r.stores, line, now).verdict, RowDateTime(line).value;
      var row := Row(line, ExtractIp(line), Some(dateTime.0), Some(dateTime.1), v.logType, v.anomaly, device);
      IngestStep(r, line, device, now) == Run(Classify(r.stores, line, now).stores, r.rows + [row],
        r.outbox + (if v.anomaly == "Yes" then [Warning(device, line)] else []), None)
  {
    if RowDateTime(line).Err? {
      assert RowDateTime(line).msg == IndexError;
    }
  }

  /** The warnings owed to a list of rows: one per anomalous row, in order. */
  function WarningsFor(rows: seq<Row>): seq<Warning>
  {
    if rows == [] then []
    else
      var last := rows[|rows| - 1];
      WarningsFor(rows[..|rows| - 1]) + (if last.anomalyDetected == "Yes" then [Warning(last.deviceId, last.logs)] else [])
  }

  /** The verdict `classify_line` gives `line` when the collections are
      `before` and the clock reads `now`: its log type is `LogType(line)`. */
  predicate VerdictFor(row: Row, line: string, before: Stores, now: int)
  {
    && Classify(before, line, now).Classified?
    && row.logType == LogType(line)
    && row.anomalyDetected == Classify(before, line, now).verdict.anomaly
    && (row.anomalyDetected == "Yes" || row.anomalyDetected == "No")
  }

  /** `row` is the row built for `line` under the header `device`, the
      collections being `before` and the clock `now` when it is classified;
      its date and time are the two tokens `RowDateTime` returns for the
      line. */
  predicate RowFor(row: Row, line: string, device: string, before: Stores, now: int)
  {
    && row.logs == line
    && row.deviceId == device
    && row.ipAddress == ExtractIp(line)
    && ExtractDatetime(line).Some?
    && row.logDate == Some(ExtractDatetime(line).value[..3])
    && row.logTime == Some(ExtractDatetime(line).value[4..|ExtractDatetime(line).value| - 9])
    && VerdictFor(row, line, before, now)
  }

  /** A step that does not raise appends the line's row and, when the row is
      anomalous, one warning for it. */
  lemma StepAppends(r: Run, line: string, device: string, now: int)
    requires r.error.None? && IngestStep(r, line, device, now).error.None?
    ensures var r' := IngestStep(r, line, device, now);
      && |r'.rows| == |r.rows| + 1
      && r'.rows[..|r.rows|] == r.rows
      && RowFor(r'.rows[|r.rows|], line, device, r.stores, now)
      && r'.outbox == r.outbox + (if r'.rows[|r.rows|].anomalyDetected == "Yes" then [Warning(device, line)] else [])
  {
    match Classify(r.stores, line, now)
    case Classified(v, s) =>
      AnomalyIsYesOrNo(r.stores, line, Parse(line).value, now);
      LogTypeOrder(r.stores, line, Parse(line).value, now);
  }

  /** A run that completes has one row per line, in order, each carrying its
      line, its address, the date and time tokens, the header's device id
      and a "Yes"/"No" verdict; exactly the anomalous rows were reported by
      e-mail, in order. */
  /** The collections as the run finds them at each line. */
  function StoresTrace(s: Stores, lines: seq<string>, device: string, clock: nat -> int): (t: seq<Stores>)
    ensures |t| == |lines|
  {
    if lines == [] then []
    else
      var init := lines[..|lines| - 1];
      StoresTrace(s, init, device, clock) + [IngestLines(s, init, device, clock).stores]
  }

  /** Entry `i` of the trace is what the run over the first `i` lines
      leaves. */
  lemma {:induction false} StoresTraceAt(s: Stores, lines: seq<string>, i: nat, device: string, clock: nat -> int)
    requires i < |lines|
    ensures StoresTrace(s, lines, device, clock)[i] == IngestLines(s, lines[..i], device, clock).stores
  {
    var init := lines[..|lines| - 1];
    if i < |init| {
      StoresTraceAt(s, init, i, device, clock);
      assert init[..i] == lines[..i];
    }
  }

  lemma {:induction false} IngestRows(s: Stores, lines: seq<string>, device: string, clock: nat -> int)
    requires IngestLines(s, lines, device, clock).error.None?
    ensures var run := IngestLines(s, lines, device, clock);
      && |run.rows| == |lines|
      && run.outbox == WarningsFor(run.rows)
      && forall i :: 0 <= i < |lines| ==>
        RowFor(run.rows[i], lines[i], device, StoresTrace(s, lines, device, clock)[i], clock(i))
  {
    if lines != [] {
      var n := |lines| - 1;
      var init := lines[..n];
      var prev := IngestLines(s, init, device, clock);
      assert prev.error.None?;
      IngestRows(s, init, device, clock);
      StepAppends(prev, lines[n], device, clock(n));
      RowsExtend(prev.rows, IngestLines(s, lines, device, clock).rows, lines, device,
        StoresTrace(s, init, device, clock), StoresTrace(s, lines, device, clock), clock);
    }
  }

  lemma RowsExtend(prev: seq<Row>, rows: seq<Row>, lines: seq<string>, device: string,
    prevTrace: seq<Stores>, trace: seq<Stores>, clock: nat -> int)
    requires |lines| > 0 && |prev| == |lines| - 1 && |rows| == |lines| && |trace| == |lines|
    requires rows[..|prev|] == prev && trace[..|prev|] == prevTrace
    requires forall i :: 0 <= i < |prev| ==> RowFor(prev[i], lines[..|prev|][i], device, prevTrace[i], clock(i))
    requires RowFor(rows[|prev|], lines[|prev|], device, trace[|prev|], clock(|prev|))
    ensures forall i :: 0 <= i < |lines| ==> RowFor(rows[i], lines[i], device, trace[i], clock(i))
  {
    forall i | 0 <= i < |lines| ensures RowFor(rows[i], lines[i], device, trace[i], clock(i)) {
      if i < |prev| {
        var row, line, before := prev[i], lines[..|prev|][i], prevTrace[i];
        assert RowFor(row, line, device, before, clock(i));
        assert rows[i] == row && lines[i] == line && trace[i] == before;
      } else {
        assert i == |prev|;
      }
    }
  }

  /** Once an exception is raised, later lines change nothing. */
  lemma {:induction false} ErrorSticks(s: Stores, lines: seq<string>, k: nat, device: string, clock: nat -> int)
    requires k <= |lines|
    requires IngestLines(s, lines[..k], device, clock).error.Some?
    ensures IngestLines(s, lines, device, clock) == IngestLines(s, lines[..k], device, clock)
    decreases |lines|
  {
    if k < |lines| {
      var init := lines[..|lines| - 1];
      assert init[..k] == lines[..k];
      ErrorSticks(s, init, k, device, clock);
    } else {
      assert lines[..k] == lines;
    }
  }

  /** As written, a single line without a timestamp anywhere in the batch
      makes the whole request fail, so no row is inserted. */
  lemma {:induction false} MissingStampFailsBatch(s: Stores, lines: seq<string>, i: nat, device: string, clock: nat -> int)
    requires i < |lines| && ExtractDatetime(lines[i]).None?
    ensures IngestLines(s, lines, device, clock).error.Some?
  {
    var prefix := lines[..i + 1];
    assert prefix[..i] == lines[..i];
    assert prefix[i] == lines[i];
    assert IngestLines(s, prefix, device, clock).error.Some? by {
      var before := IngestLines(s, lines[..i], device, clock);
      if before.error.None? {
        match Classify(before.stores, lines[i], clock(i))
        case Raised =>
        case Classified(v, s1) =>
          assert RowDateTime(lines[i]).Err?;
      }
    }
    ErrorSticks(s, lines, i + 1, device, clock);
  }

  /** The smallest such request: one line, no timestamp. */
  lemma MissingStampExample(s: Stores, clock: nat -> int)
    ensures IngestLines(s, ["Failed password for root"], "dev-1", clock).error.Some?
  {
    var line := "Failed password for root";
    assert !IsStamp(line[..15]) && !IsStamp(line[..14]) by {
      assert line[3] != ' ';
    }
    MissingStampFailsBatch(s, [line], 0, "dev-1", clock);
  }
  // ---------------------------------------------------------------------
  // The endpoint as evidently intended

  /** One iteration with the row fields of `RowDateTimeIntended`: a line
      without a timestamp gets a row with no date and no time, so only a
      timestamp that `strptime` rejects stops the run. */
  function IngestStepIntended(r: Run, line: string, device: string, now: int): Run
  {
    if r.error.Some? then r
    else
      match Classify(r.stores, line, now)
      case Raised => r.(error := Some("ValueError: time data does not match format"))
      case Classified(v, s) =>
        var dateTime := RowDateTimeIntended(line);
        var row := Row(line, ExtractIp(line), dateTime.0, dateTime.1, v.logType, v.anomaly, device);
        Run(s, r.rows + [row], r.outbox + (if v.anomaly == "Yes" then [Warning(device, line)] else []), None)
  }

  function IngestLinesIntended(s: Stores, lines: seq<string>, device: string, clock: nat -> int): Run
  {
    if lines == [] then Run(s, [], [], None)
    else
      IngestStepIntended(IngestLinesIntended(s, lines[..|lines| - 1], device, clock), lines[|lines| - 1], device,
        clock(|lines| - 1))
  }

  /** `row` is the intended row for `line` under the header `device`, the
      collections being `before` and the clock `now` when it is classified:
      no date and no time when the line has no timestamp, otherwise the
      timestamp's month and day tokens. */
  predicate RowForIntended(row: Row, line: string, device: string, before: Stores, now: int)
  {
    && row.logs == line
    && row.deviceId == device
    && row.ipAddress == ExtractIp(line)
    && (ExtractDatetime(line).None? ==> row.logDate == None && row.logTime == None)
    && (ExtractDatetime(line).Some? ==>
      && row.logDate == Some(ExtractDatetime(line).value[..3])
      && row.logTime == Some(ExtractDatetime(line).value[4..|ExtractDatetime(line).value| - 9]))
    && VerdictFor(row, line, before, now)
  }

  /** The collections as the corrected run finds them at each line. */
  function StoresTraceIntended(s: Stores, lines: seq<string>, device: string, clock: nat -> int): (t: seq<Stores>)
    ensures |t| == |lines|
  {
    if lines == [] then []
    else
      var init := lines[..|lines| - 1];
      StoresTraceIntended(s, init, device, clock) + [IngestLinesIntended(s, init, device, clock).stores]
  }

  /** Entry `i` of the corrected trace is what the corrected run over the
      first `i` lines leaves. */
  lemma {:induction false} StoresTraceIntendedAt(s: Stores, lines: seq<string>, i: nat, device: string, clock: nat -> int)
    requires i < |lines|
    ensures StoresTraceIntended(s, lines, device, clock)[i] == IngestLinesIntended(s, lines[..i], device, clock).stores
  {
    var init := lines[..|lines| - 1];
    if i < |init| {
      StoresTraceIntendedAt(s, init, i, device, clock);
      assert init[..i] == lines[..i];
    }
  }

  /** A corrected step raises exactly when the run had already stopped or
      the line does not parse. */
  lemma IntendedStepError(r: Run, line: string, device: string, now: int)
    ensures IngestStepIntended(r, line, device, now).error.Some? <==> r.error.Some? || Parse(line).None?
  {
  }

  /** Corrected, the request fails only when some line starts with a
      timestamp `strptime` rejects; a line without a timestamp never stops
      it. */
  lemma {:induction false} IntendedFailsOnlyOnBadStamp(s: Stores, lines: seq<string>, device: string, clock: nat -> int)
    requires IngestLinesIntended(s, lines, device, clock).error.Some?
    ensures exists i :: 0 <= i < |lines| && Parse(lines[i]).None? && ExtractDatetime(lines[i]).Some?
  {
    var n := |lines| - 1;
    var init := lines[..n];
    var prev := IngestLinesIntended(s, init, device, clock);
    IntendedStepError(prev, lines[n], device, clock(n));
    if prev.error.Some? {
      IntendedFailsOnlyOnBadStamp(s, init, device, clock);
      var i :| 0 <= i < |init| && Parse(init[i]).None? && ExtractDatetime(init[i]).Some?;
      assert lines[i] == init[i];
    } else {
      assert Parse(lines[n]).None?;
    }
  }

  /** In the corrected run too, once an error is recorded the remaining
      lines are skipped. */
  lemma {:induction false} IntendedErrorSticks(s: Stores, lines: seq<string>, k: nat, device: string, clock: nat -> int)
    requires k <= |lines|
    requires IngestLinesIntended(s, lines[..k], device, clock).error.Some?
    ensures IngestLinesIntended(s, lines, device, clock) == IngestLinesIntended(s, lines[..k], device, clock)
    decreases |lines|
  {
    if k < |lines| {
      var init := lines[..|lines| - 1];
      assert init[..k] == lines[..k];
      IntendedErrorSticks(s, init, k, device, clock);
    } else {
      assert lines[..k] == lines;
    }
  }

  /** Corrected, a line whose timestamp `strptime` rejects still fails the
      request, as it does as written. */
  lemma IntendedBadStampFails(s: Stores, lines: seq<string>, i: nat, device: string, clock: nat -> int)
    requires i < |lines| && Parse(lines[i]).None?
    ensures IngestLinesIntended(s, lines, device, clock).error.Some?
  {
    var prefix := lines[..i + 1];
    assert prefix[..i] == lines[..i];
    IntendedStepError(IngestLinesIntended(s, lines[..i], device, clock), lines[i], device, clock(i));
    IntendedErrorSticks(s, lines, i + 1, device, clock);
  }

  /** Corrected, a request that completes has one row per line, in order,
      each with its line, address, device, verdict and the intended date and
      time; the warnings are those of the anomalous rows, in order. */
  lemma {:induction false} IntendedRows(s: Stores, lines: seq<string>, device: string, clock: nat -> int)
    requires IngestLinesIntended(s, lines, device, clock).error.None?
    ensures var run := IngestLinesIntended(s, lines, device, clock);
      && |run.rows| == |lines|
      && run.outbox == WarningsFor(run.rows)
      && forall i :: 0 <= i < |lines| ==>
        RowForIntended(run.rows[i], lines[i], device, StoresTraceIntended(s, lines, device, clock)[i], clock(i))
  {
    if lines != [] {
      var n := |lines| - 1;
      var init := lines[..n];
      var prev := IngestLinesIntended(s, init, device, clock);
      assert prev.error.None?;
      IntendedRows(s, init, device, clock);
      IntendedStepAppends(prev, lines[n], device, clock(n));
      var trace := StoresTraceIntended(s, lines, device, clock);
      assert trace == StoresTraceIntended(s, init, device, clock) + [prev.stores];
      IntendedRowsExtend(prev.rows, IngestLinesIntended(s, lines, device, clock).rows, lines, device,
        StoresTraceIntended(s, init, device, clock), trace, clock);
    }
  }

  /** A corrected step that does not raise appends the line's row and, when
      the row is anomalous, one warning for it. */
  lemma IntendedStepAppends(r: Run, line: string, device: string, now: int)
    requires r.error.None? && IngestStepIntended(r, line, device, now).error.None?
    ensures var r' := IngestStepIntended(r, line, device, now);
      && |r'.rows| == |r.rows| + 1
      && r'.rows[..|r.rows|] == r.rows
      && RowForIntended(r'.rows[|r.rows|], line, device, r.stores, now)
      && r'.outbox == r.outbox + (if r'.rows[|r.rows|].anomalyDetected == "Yes" then [Warning(device, line)] else [])
  {
    match Classify(r.stores, line, now)
    case Classified(v, s) =>
      AnomalyIsYesOrNo(r.stores, line, Parse(line).value, now);
      LogTypeOrder(r.stores, line, Parse(line).value, now);
  }

  lemma IntendedRowsExtend(prev: seq<Row>, rows: seq<Row>, lines: seq<string>, device: string,
    prevTrace: seq<Stores>, trace: seq<Stores>, clock: nat -> int)
    requires |lines| > 0 && |prev| == |lines| - 1 && |rows| == |lines| && |trace| == |lines|
    requires rows[..|prev|] == prev && trace[..|prev|] == prevTrace
    requires forall i :: 0 <= i < |prev| ==> RowForIntended(prev[i], lines[..|prev|][i], device, prevTrace[i], clock(i))
    requires RowForIntended(rows[|prev|], lines[|prev|], device, trace[|prev|], clock(|prev|))
    ensures forall i :: 0 <= i < |lines| ==> RowForIntended(rows[i], lines[i], device, trace[i], clock(i))
  {
    forall i | 0 <= i < |lines| ensures RowForIntended(rows[i], lines[i], device, trace[i], clock(i)) {
      if i < |prev| {
        var row, line, before := prev[i], lines[..|prev|][i], prevTrace[i];
        assert RowForIntended(row, line, device, before, clock(i));
        assert rows[i] == row && lines[i] == line && trace[i] == before;
      } else {
        assert i == |prev|;
      }
    }
  }

  /** Where the line has a timestamp, a corrected step is the written one. */
  lemma StepAgrees(r: Run, line: string, device: string, now: int)
    requires ExtractDatetime(line).Some?
    ensures IngestStepIntended(r, line, device, now) == IngestStep(r, line, device, now)
  {
    var p := ExtractDatetime(line).value;
    assert RowDateTimeIntended(line) == (Some(p[..3]), Some(p[4..|p| - 9]));
  }

  /** Where every line has a timestamp, the corrected endpoint does exactly
      what the written one does. */
  lemma {:induction false} IntendedAgrees(s: Stores, lines: seq<string>, device: string, clock: nat -> int)
    requires forall i :: 0 <= i < |lines| ==> ExtractDatetime(lines[i]).Some?
    ensures IngestLinesIntended(s, lines, device, clock) == IngestLines(s, lines, device, clock)
  {
    if lines != [] {
      var n := |lines| - 1;
      var init := lines[..n];
      IntendedAgrees(s, init, device, clock);
      StepAgrees(IngestLines(s, init, device, clock), lines[n], device, clock(n));
    }
  }
}
