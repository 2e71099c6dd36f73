/** The log record every dashboard component works on (the `AnomalyLog`
    interface of the frontend's data service) and the two counts that several
    components derive from it. */
module Logs {
  import opened Common

  datatype AnomalyLog = AnomalyLog(
    lineId: int,
    logs: string,
    ipAddress: string,
    date: string,
    time: string,
    logType: string,
    authFailuresLast1h: int,
    timeSinceLastFailure: int,
    isRootAttempt: bool,
    uniqueUsersAttempted: int,
    anomalyDetected: bool,
    deviceId: Option<string>)

  /** `logs.filter(l => l.anomaly_detected).length` */
  function AnomalyCount(logs: seq<AnomalyLog>): (n: nat)
    ensures n <= |logs|
    ensures n == |logs| <==> forall i :: 0 <= i < |logs| ==> logs[i].anomalyDetected
    ensures n == 0 <==> forall i :: 0 <= i < |logs| ==> !logs[i].anomalyDetected
  {
    if logs == [] then 0
    else
      var rest := logs[..|logs| - 1];
      assert forall i :: 0 <= i < |rest| ==> rest[i] == logs[i];
      AnomalyCount(rest) + (if logs[|logs| - 1].anomalyDetected then 1 else 0)
  }

  /** `logs.filter(l => !l.anomaly_detected).length` */
  function NormalCount(logs: seq<AnomalyLog>): (n: nat)
  {
    if logs == [] then 0
    else NormalCount(logs[..|logs| - 1]) + (if logs[|logs| - 1].anomalyDetected then 0 else 1)
  }

  /** Every log is counted exactly once, either as normal or as anomalous. */
  lemma {:induction false} CountsPartition(logs: seq<AnomalyLog>)
    ensures NormalCount(logs) + AnomalyCount(logs) == |logs|
  {
    if logs != [] {
      CountsPartition(logs[..|logs| - 1]);
    }
  }

  /** Appending a log adds it to exactly one of the two counts. */
  lemma CountsAppend(logs: seq<AnomalyLog>, l: AnomalyLog)
    ensures AnomalyCount(logs + [l]) == AnomalyCount(logs) + (if l.anomalyDetected then 1 else 0)
    ensures NormalCount(logs + [l]) == NormalCount(logs) + (if l.anomalyDetected then 0 else 1)
  {
    assert (logs + [l])[..|logs|] == logs;
  }
}
