/** The normal/anomalous pie chart (components/dashboard/PieChart.tsx). */
module PieChart {
  import opened Logs

  const Labels := ["Normal", "Anomalous"]

  datatype PieView = NoData | Pie(labels: seq<string>, data: seq<nat>)

  /** The placeholder for an empty list, otherwise the two slices:
      `[normalCount, anomalyCount]` under `['Normal', 'Anomalous']`. */
  function View(logs: seq<AnomalyLog>): (v: PieView)
  {
    if |logs| == 0 then NoData else Pie(Labels, [NormalCount(logs), AnomalyCount(logs)])
  }

  /** The chart has one slice per label; the slices add up to the list, the
      first counting the normal logs and the second the anomalous ones, so a
      slice is empty exactly when no log of its kind is in the list. */
  lemma ViewSpec(logs: seq<AnomalyLog>)
    ensures View(logs).NoData? <==> logs == []
    ensures View(logs).Pie? ==>
      var d := View(logs).data;
      && |d| == |View(logs).labels| == 2
      && View(logs).labels[0] == "Normal" && View(logs).labels[1] == "Anomalous"
      && d[0] + d[1] == |logs|
      && d[1] == AnomalyCount(logs)
      && (d[0] == 0 <==> forall i :: 0 <= i < |logs| ==> logs[i].anomalyDetected)
      && (d[1] == 0 <==> forall i :: 0 <= i < |logs| ==> !logs[i].anomalyDetected)
  {
    CountsPartition(logs);
  }
}
