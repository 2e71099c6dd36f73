/** The suspicious-IP table of the dashboard (SuspiciousIPsTable.tsx): the
    anomalous logs with a non-blank IP, reduced into a `Map` keyed by IP so
    that each IP keeps the first log that names it, and the single
    "sending" slot of its e-mail button. */
module SuspiciousIps {
  import opened Common
  import opened Logs

  // ---------------------------------------------------------------------
  // Blank IPs

  /** JavaScript's `s.trim()`: white space and line terminators removed at
      both ends. */
  function Trim(s: string): (r: string)
    ensures |r| <= |s|
    decreases |s|
  {
    if s == [] then []
    else if IsJsSpace(s[0]) then Trim(s[1..])
    else if IsJsSpace(s[|s| - 1]) then Trim(s[..|s| - 1])
    else s
  }

  /** A string trims to nothing exactly when it is all white space. */
  lemma {:induction false} TrimEmpty(s: string)
    ensures Trim(s) == [] <==> forall k :: 0 <= k < |s| ==> IsJsSpace(s[k])
    decreases |s|
  {
    if s != [] {
      if IsJsSpace(s[0]) {
        TrimEmpty(s[1..]);
        assert forall k :: 1 <= k < |s| ==> s[k] == s[1..][k - 1];
      } else if IsJsSpace(s[|s| - 1]) {
        TrimEmpty(s[..|s| - 1]);
        assert !IsJsSpace(s[..|s| - 1][0]);
      }
    }
  }

  /** The filter: an anomalous log whose IP is present and not blank. */
  predicate Qualifies(l: AnomalyLog)
  {
    l.anomalyDetected && l.ipAddress != "" && Trim(l.ipAddress) != ""
  }

  /** `logs.filter(Qualifies)`, in order. */
  function Qualifying(logs: seq<AnomalyLog>): (r: seq<AnomalyLog>)
    ensures forall i :: 0 <= i < |r| ==> Qualifies(r[i]) && r[i] in logs
    ensures forall l :: l in logs && Qualifies(l) ==> l in r
  {
    if logs == [] then []
    else
      var init := Qualifying(logs[..|logs| - 1]);
      assert forall l :: l in logs ==> l in logs[..|logs| - 1] || l == logs[|logs| - 1];
      var last := logs[|logs| - 1];
      if Qualifies(last) then init + [last] else init
  }

  /** The filter keeps the qualifying logs in their order, with repeats:
      one list after another, and each log decided on its own. */
  lemma {:induction false} QualifyingFilter(a: seq<AnomalyLog>, b: seq<AnomalyLog>)
    ensures Qualifying(a + b) == Qualifying(a) + Qualifying(b)
    ensures |a| == 1 ==> Qualifying(a) == if Qualifies(a[0]) then a else []
    decreases |b|
  {
    if b == [] {
      assert a + b == a;
    } else {
      var init := b[..|b| - 1];
      QualifyingFilter(a, init);
      assert (a + b)[..|a + b| - 1] == a + init;
      assert (a + b)[|a + b| - 1] == b[|b| - 1];
    }
    if |a| == 1 {
      assert a[..0] == [];
    }
  }

  // ---------------------------------------------------------------------
  // The reduce into a Map

  /** One entry of the Map, and one row of the table. */
  datatype Suspect = Suspect(ip: string, deviceId: string)

  /** The entry a log creates: its IP, and its device or '-' when that is
      absent or empty. */
  function SuspectOf(l: AnomalyLog): Suspect
  {
    Suspect(l.ipAddress, OrElse(l.deviceId, "-"))
  }

  function Ips(r: seq<Suspect>): (ips: seq<string>)
    ensures |ips| == |r| && forall i :: 0 <= i < |r| ==> ips[i] == r[i].ip
  {
    if r == [] then [] else [r[0].ip] + Ips(r[1..])
  }

  function IpsOf(logs: seq<AnomalyLog>): (ips: seq<string>)
    ensures |ips| == |logs| && forall i :: 0 <= i < |logs| ==> ips[i] == logs[i].ipAddress
  {
    if logs == [] then [] else [logs[0].ipAddress] + IpsOf(logs[1..])
  }

  /** The reduce: a log whose IP the Map already holds changes nothing; any
      other log adds its entry at the end of the Map's insertion order. */
  function Dedup(logs: seq<AnomalyLog>): seq<Suspect>
  {
    if logs == [] then []
    else
      var acc := Dedup(logs[..|logs| - 1]);
      var l := logs[|logs| - 1];
      if l.ipAddress in Ips(acc) then acc else acc + [SuspectOf(l)]
  }

  /** `Array.from(map).map(([_, value]) => value)` over the filtered logs. */
  function SuspiciousIps(logs: seq<AnomalyLog>): seq<Suspect>
  {
    Dedup(Qualifying(logs))
  }

  lemma IpsAppend(r: seq<Suspect>, s: Suspect)
    ensures Ips(r + [s]) == Ips(r) + [s.ip]
  {
  }

  lemma IpsOfAppend(logs: seq<AnomalyLog>, l: AnomalyLog)
    ensures IpsOf(logs + [l]) == IpsOf(logs) + [l.ipAddress]
  {
  }

  /** The Map's keys are the logs' IPs as a `Set` would keep them. */
  lemma {:induction false} DedupIps(logs: seq<AnomalyLog>)
    ensures Ips(Dedup(logs)) == Uniq(IpsOf(logs))
  {
    if logs != [] {
      var init := logs[..|logs| - 1];
      var l := logs[|logs| - 1];
      DedupIps(init);
      assert logs == init + [l];
      IpsOfAppend(init, l);
      assert IpsOf(logs)[..|logs| - 1] == IpsOf(init);
      if l.ipAddress !in Ips(Dedup(init)) {
        IpsAppend(Dedup(init), SuspectOf(l));
      }
    }
  }

  /** `s` is the entry of the first log of `logs` that names its IP. */
  predicate FirstEntry(logs: seq<AnomalyLog>, s: Suspect)
  {
    s.ip in IpsOf(logs) && s == SuspectOf(logs[FirstIndex(IpsOf(logs), s.ip)])
  }

  lemma FirstEntryAppend(logs: seq<AnomalyLog>, l: AnomalyLog, s: Suspect)
    requires FirstEntry(logs, s)
    ensures FirstEntry(logs + [l], s)
  {
    IpsOfAppend(logs, l);
    FirstIndexAppend(IpsOf(logs), l.ipAddress, s.ip);
  }

  lemma FirstEntryNew(logs: seq<AnomalyLog>, l: AnomalyLog)
    requires l.ipAddress !in IpsOf(logs)
    ensures FirstEntry(logs + [l], SuspectOf(l))
  {
    IpsOfAppend(logs, l);
    FirstIndexNew(IpsOf(logs), l.ipAddress);
  }

  /** Each entry is made from the first log that names its IP. */
  lemma {:induction false} DedupFirst(logs: seq<AnomalyLog>)
    ensures forall i :: 0 <= i < |Dedup(logs)| ==> FirstEntry(logs, Dedup(logs)[i])
  {
    if logs != [] {
      var init := logs[..|logs| - 1];
      var l := logs[|logs| - 1];
      var acc := Dedup(init);
      DedupFirst(init);
      assert logs == init + [l];
      if l.ipAddress in Ips(acc) {
        forall i | 0 <= i < |acc| ensures FirstEntry(logs, acc[i]) {
          FirstEntryAppend(init, l, acc[i]);
        }
      } else {
        DedupIps(init);
        UniqMembers(IpsOf(init));
        forall i | 0 <= i < |acc| + 1 ensures FirstEntry(logs, (acc + [SuspectOf(l)])[i]) {
          if i < |acc| {
            FirstEntryAppend(init, l, acc[i]);
          } else {
            FirstEntryNew(init, l);
          }
        }
      }
    }
  }

  /** The table lists every qualifying IP exactly once, in the order of
      first appearance, each with the device of the first qualifying log
      that names it ('-' when that log has none). */
  lemma SuspiciousIpsSpec(logs: seq<AnomalyLog>)
    ensures var r := SuspiciousIps(logs);
      var q := Qualifying(logs);
      && Distinct(Ips(r))
      && (forall l :: l in logs && Qualifies(l) ==> l.ipAddress in Ips(r))
      && (forall i :: 0 <= i < |r| ==> FirstEntry(q, r[i]))
      && (forall i, j :: 0 <= i < j < |r| ==> FirstBefore(IpsOf(q), r[i].ip, r[j].ip))
  {
    var q := Qualifying(logs);
    var r := SuspiciousIps(logs);
    DedupIps(q);
    UniqMembers(IpsOf(q));
    UniqOrder(IpsOf(q));
    DedupFirst(q);
    forall l | l in logs && Qualifies(l) ensures l.ipAddress in Ips(r) {
      var k :| 0 <= k < |q| && q[k] == l;
      assert IpsOf(q)[k] == l.ipAddress;
    }
    forall i, j | 0 <= i < j < |r| ensures FirstBefore(IpsOf(q), r[i].ip, r[j].ip) {
      assert r[i].ip == Uniq(IpsOf(q))[i] && r[j].ip == Uniq(IpsOf(q))[j];
    }
  }

  /** `s` holds a character other than white space. */
  predicate NonBlank(s: string)
  {
    exists k :: 0 <= k < |s| && !IsJsSpace(s[k])
  }

  /** Some anomalous log of `logs` names `ip`, and `ip` is not blank. */
  predicate Reported(logs: seq<AnomalyLog>, ip: string)
  {
    exists l :: l in logs && l.anomalyDetected && l.ipAddress == ip && NonBlank(ip)
  }

  /** Every row comes from a qualifying log: an anomalous one with a
      non-blank IP. */
  lemma SuspectsQualify(logs: seq<AnomalyLog>)
    ensures forall i :: 0 <= i < |SuspiciousIps(logs)| ==> Reported(logs, SuspiciousIps(logs)[i].ip)
  {
    var q := Qualifying(logs);
    DedupFirst(q);
    forall i | 0 <= i < |SuspiciousIps(logs)|
      ensures Reported(logs, SuspiciousIps(logs)[i].ip)
    {
      var l := q[FirstIndex(IpsOf(q), SuspiciousIps(logs)[i].ip)];
      TrimEmpty(l.ipAddress);
      assert l in logs && l.anomalyDetected && l.ipAddress == SuspiciousIps(logs)[i].ip;
    }
  }

  // ---------------------------------------------------------------------
  // The e-mail button

  /** The one `sendingEmail` slot of the table, shared by every row, and
      the IPs for which a warning was logged. */
  class Mailer {
    var sending: Option<string>
    var logged: seq<string>

    constructor ()
      ensures sending == None && logged == []
    {
      sending, logged := None, [];
    }

    /** The part of `handleSendEmail(ip)` before its delay: nothing happens
        when the slot already holds `ip`; otherwise the slot takes `ip`,
        whichever IP it held before. */
    method Begin(ip: string) returns (started: bool)
      modifies this
      ensures started <==> old(sending) != Some(ip)
      ensures sending == Some(ip)
      ensures logged == old(logged)
    {
      if sending == Some(ip) {
        return false;
      }
      sending := Some(ip);
      started := true;
    }

    /** The part after the delay: the warning is logged and the `finally`
        empties the slot, whatever IP it holds by then. */
    method Finish(ip: string)
      modifies this
      ensures sending == None
      ensures logged == old(logged) + [ip]
    {
      logged := logged + [ip];
      sending := None;
    }

    /** `handleSendEmail(ip)` run to completion with no click in between. */
    method HandleSendEmail(ip: string)
      modifies this
      ensures old(sending) == Some(ip) ==> sending == old(sending) && logged == old(logged)
      ensures old(sending) != Some(ip) ==> sending == None && logged == old(logged) + [ip]
    {
      var started := Begin(ip);
      if started {
        Finish(ip);
      }
    }
  }

  // ---------------------------------------------------------------------
  // Rendering

  datatype IpsView = Loading | Failed(message: string) | NoIps | Table(rows: seq<Suspect>)

  /** What the component renders: the spinner while loading, then a
      non-empty error, then the empty state, then the rows. */
  function View(logs: seq<AnomalyLog>, loading: bool, error: Option<string>): (v: IpsView)
    ensures v.Loading? <==> loading
    ensures v.Failed? <==> !loading && Truthy(error)
    ensures v.Failed? ==> v.message == error.value
    ensures v.NoIps? <==> !loading && !Truthy(error) && forall l :: l in logs ==> !Qualifies(l)
    ensures v.Table? ==> v.rows == SuspiciousIps(logs) && v.rows != []
  {
    if loading then Loading
    else if Truthy(error) then Failed(error.value)
    else
      var rows := SuspiciousIps(logs);
      SuspiciousIpsSpec(logs);
      DedupFirst(Qualifying(logs));
      if rows == [] then NoIps else Table(rows)
  }
}
