/** The ingestion backend as it runs (backend/app.py): three collections that
    `classify_line` reads and updates document by document, the `log_table`
    that `ingest_logs` inserts into, and the warnings it sends. Each method
    is proved to do what the functions of Classifier and Ingest say. */
module Backend {
  import opened Common
  import opened Extract
  import opened Classifier
  import opened Ingest

  lemma AppendAssoc<T>(a: seq<T>, b: seq<T>, c: seq<T>)
    ensures a + (b + c) == (a + b) + c
  {
  }

  class Backend {
    /** The `memory` collection: burst record per IP. */
    var memory: map<string, Burst>
    /** The `failed_attempts` collection: failure times per IP. */
    var failed: map<string, seq<int>>
    /** The `access_attempts` collection, in insertion order. */
    var access: seq<Access>
    /** The rows of `log_table`. */
    var table: seq<Row>
    /** The calls made to `send_warning_email`, in order. */
    var outbox: seq<Warning>

    function Collections(): Stores
      reads this
    {
      Stores(memory, failed, access)
    }

    constructor ()
      ensures Collections() == Stores(map[], map[], [])
      ensures table == [] && outbox == []
    {
      memory, failed, access := map[], map[], [];
      table, outbox := [], [];
    }

    /** `classify_line(line)` with the wall clock reading `now`: `None` where
        the call raises, and then no collection has changed. */
    method ClassifyLine(line: string, now: int) returns (r: Option<Verdict>)
      modifies this
      ensures r.None? <==> Classify(old(Collections()), line, now).Raised?
      ensures r.Some? ==> Classify(old(Collections()), line, now) == Classified(r.value, Collections())
      ensures r.None? ==> Collections() == old(Collections())
      ensures table == old(table) && outbox == old(outbox)
    {
      var parsed := Parse(line);
      if parsed.None? {
        return None;
      }
      var p := parsed.value;
      var anomaly, logType := "No", "Normal";
      if IsAuthFailure(line) {
        logType := "Auth Failure";
        var failure := RecordFailure(line, p);
        if failure {
          anomaly := "Yes";
        }
      }
      if IsAcceptedPassword(line) {
        logType := "Successful Login";
        var login := CheckLogin(line, p);
        if login {
          anomaly := "Yes";
        }
      }
      var crowd := RecordAccess(p, now);
      if crowd {
        anomaly := "Yes";
      }
      if IsServiceIssue(line) {
        logType := "Service Issue";
        anomaly := "Yes";
      }
      r := Some(Verdict(anomaly, logType));
    }

    /** The authentication-failure block: the burst counter, then the failure
        history. */
    method RecordFailure(line: string, p: Parsed) returns (anomalous: bool)
      requires IsAuthFailure(line)
      modifies this
      ensures (Collections(), anomalous) == FailureRule(old(Collections()), line, p)
      ensures table == old(table) && outbox == old(outbox)
    {
      anomalous := false;
      if p.ip.Some? && p.time.Some? {
        var ip, t := p.ip.value, p.time.value;
        if ip in memory {
          var rec := memory[ip];
          if Within10Seconds(t, rec.lastSeen) {
            var count := rec.count + 1;
            memory := memory[ip := Burst(t, count)];
            if count > 3 {
              anomalous := true;
            }
          } else {
            memory := memory[ip := Burst(t, 1)];
          }
        } else {
          memory := memory[ip := Burst(t, 1)];
        }
        var times := if ip in failed then failed[ip] else [];
        times := Prune(times, t);
        times := times + [t];
        failed := failed[ip := times];
        if |times| > 20 {
          anomalous := true;
        }
      }
    }

    /** The accepted-password block. */
    method CheckLogin(line: string, p: Parsed) returns (anomalous: bool)
      requires IsAcceptedPassword(line)
      modifies this
      ensures (Collections(), anomalous) == LoginRule(old(Collections()), line, p)
      ensures table == old(table) && outbox == old(outbox)
    {
      anomalous := false;
      if p.ip.Some? {
        var ip := p.ip.value;
        if ip in failed && |failed[ip]| > 3 {
          anomalous := true;
          failed := failed - {ip};
        }
      }
    }

    /** The access-window block. */
    method RecordAccess(p: Parsed, now: int) returns (anomalous: bool)
      modifies this
      ensures (Collections(), anomalous) == AccessRule(old(Collections()), p, now)
      ensures table == old(table) && outbox == old(outbox)
    {
      anomalous := false;
      if p.ip.Some? && p.time.Some? {
        ghost var before := Collections();
        access := access + [Access(p.ip.value, now)];
        assert Collections() == before.(access := access);
        var recent := RecentIps(access, now - 5);
        if |recent| > 5 {
          anomalous := true;
        }
      }
    }

    /** One iteration of the loop of `ingest_logs`: classify the line, build
        its row and, for an anomalous line, send the warning. `error` is the
        exception that ends the request; `delta` the warnings sent. */
    method IngestLine(line: string, device: string, now: int, rows: seq<Row>, ghost sent: seq<Warning>)
      returns (rows': seq<Row>, error: Option<string>, ghost delta: seq<Warning>)
      modifies this
      ensures IngestStep(Run(old(Collections()), rows, sent, None), line, device, now)
        == Run(Collections(), rows', sent + delta, error)
      ensures outbox == old(outbox) + delta && table == old(table)
    {
      ghost var before := Run(Collections(), rows, sent, None);
      StepOutcome(before, line, device, now);
      rows', delta := rows, [];
      var verdict := ClassifyLine(line, now);
      if verdict.None? {
        return rows', Some("ValueError: time data does not match format"), delta;
      }
      var dateTime := RowDateTime(line);
      if dateTime.Err? {
        return rows', Some(dateTime.msg), delta;
      }
      var v := verdict.value;
      rows' := rows + [Row(line, ExtractIp(line), Some(dateTime.value.0), Some(dateTime.value.1), v.logType, v.anomaly, device)];
      if v.anomaly == "Yes" {
        outbox := outbox + [Warning(device, line)];
        delta := [Warning(device, line)];
      }
      error := None;
    }

    /** `ingest_logs(logs)` with header `device`, the `i`-th line classified
        at clock reading `clock(i)`: the collections and the warnings follow
        the run of Ingest; the rows are inserted, and their number returned,
        only when no line raised. */
    method IngestLogs(logs: string, device: string, clock: nat -> int) returns (r: Result<nat>)
      modifies this
      ensures var run := IngestLines(old(Collections()), SplitLines(logs), device, clock);
        && Collections() == run.stores
        && outbox == old(outbox) + run.outbox
        && (run.error.None? ==> r == Ok(|run.rows|) && table == old(table) + run.rows)
        && (run.error.Some? ==> r == Err(run.error.value) && table == old(table))
    {
      var lines := SplitLines(logs);
      ghost var start := Collections();
      ghost var sent: seq<Warning> := [];
      var rows: seq<Row> := [];
      var i := 0;
      while i < |lines|
        invariant 0 <= i <= |lines|
        invariant IngestLines(start, lines[..i], device, clock) == Run(Collections(), rows, sent, None)
        invariant outbox == old(outbox) + sent
        invariant table == old(table)
      {
        ghost var before := Run(Collections(), rows, sent, None);
        var error;
        ghost var delta;
        rows, error, delta := IngestLine(lines[i], device, clock(i), rows, sent);
        AppendAssoc(old(outbox), sent, delta);
        sent := sent + delta;
        Advance(start, lines, i, device, clock, before, Run(Collections(), rows, sent, error));
        if error.Some? {
          return Err(error.value);
        }
        i := i + 1;
      }
      assert lines[..i] == lines;
      table := table + rows;
      r := Ok(|rows|);
    }
  }
}
