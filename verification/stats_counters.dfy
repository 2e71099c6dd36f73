/** The four counters above the dashboard (components/dashboard/
    StatsCounters.tsx), recomputed from the logs and the total count each
    time either changes. */
module StatsCounters {
  import opened Logs

  /** The `counters` state: `rate` is the anomaly percentage before its
      rounding to two decimals. */
  datatype Counters = Counters(total: int, anomalies: nat, lastTs: string, rate: real)

  /** The state before the effect first runs. */
  const Initial := Counters(0, 0, "", 0.0)

  const NoLogs := "No logs available"

  /** The timestamp shown: "date time" of the last log of the list, or the
      placeholder for an empty list. */
  function LastTimestamp(logs: seq<AnomalyLog>): (s: string)
    ensures logs == [] ==> s == NoLogs
  {
    if |logs| > 0 then logs[|logs| - 1].date + " " + logs[|logs| - 1].time else NoLogs
  }

  /** Real division of a part by a positive whole lies between 0 and 1. */
  lemma RatioBounds(a: real, n: real)
    requires 0.0 <= a <= n && n > 0.0
    ensures 0.0 <= a / n <= 1.0
    ensures a / n == 0.0 <==> a == 0.0
    ensures a / n == 1.0 <==> a == n
  {
  }

  /** `(anomalies / logs.length) * 100`, or 0 for an empty list. */
  function Rate(logs: seq<AnomalyLog>): (r: real)
    ensures 0.0 <= r <= 100.0
  {
    if |logs| > 0 then
      RatioBounds(AnomalyCount(logs) as real, |logs| as real);
      (AnomalyCount(logs) as real / |logs| as real) * 100.0
    else 0.0
  }

  /** The effect at lines 15-28: the values it stores. */
  function Compute(logs: seq<AnomalyLog>, totalLogsCount: int): (c: Counters)
    ensures c.total == totalLogsCount
    ensures c.anomalies <= |logs|
    ensures c.anomalies == AnomalyCount(logs) && c.lastTs == LastTimestamp(logs) && c.rate == Rate(logs)
  {
    Counters(totalLogsCount, AnomalyCount(logs), LastTimestamp(logs), Rate(logs))
  }

  /** The timestamp is that of the last log of the list, whatever the
      earlier logs hold: it is not the latest time of the list. */
  lemma LastTimestampOfLast(logs: seq<AnomalyLog>, l: AnomalyLog)
    ensures Compute(logs + [l], 0).lastTs == l.date + " " + l.time
    ensures forall other: seq<AnomalyLog> :: Compute(other + [l], 0).lastTs == Compute(logs + [l], 0).lastTs
  {
  }

  /** The total is the count passed in, whatever the list. */
  lemma TotalIndependent(logs: seq<AnomalyLog>, other: seq<AnomalyLog>, totalLogsCount: int)
    ensures Compute(logs, totalLogsCount).total == Compute(other, totalLogsCount).total
  {
  }

  /** The rate is 0 exactly when no log is anomalous (an empty list
      included), and 100 exactly when the list is not empty and every log
      is anomalous. */
  lemma RateBounds(logs: seq<AnomalyLog>)
    ensures Rate(logs) == 0.0 <==> AnomalyCount(logs) == 0
    ensures Rate(logs) == 100.0 <==> |logs| > 0 && AnomalyCount(logs) == |logs|
  {
    if |logs| > 0 {
      RatioBounds(AnomalyCount(logs) as real, |logs| as real);
    }
  }
}
