/** The dashboard page (pages/Dashboard.tsx): the fetched logs, the filtered
    logs the widgets show, the loading, refreshing and error flags, the
    total count, and the filter values whose change reruns the filter
    query. The data service's `fetchLogs`, `countTotalLogs` and
    `filterLogs` are not part of this model: their outcomes are
    parameters. */
module Dashboard {
  import opened Common
  import opened Logs

  /** `logs.map(l => l.log_type)` */
  function LogTypes(logs: seq<AnomalyLog>): (r: seq<string>)
    ensures |r| == |logs| && forall i :: 0 <= i < |logs| ==> r[i] == logs[i].logType
  {
    if logs == [] then [] else [logs[0].logType] + LogTypes(logs[1..])
  }

  /** `Array.from(new Set(logs.map(l => l.log_type)))`: the event types
      offered by the filter. */
  function Types(logs: seq<AnomalyLog>): seq<string>
  {
    Uniq(LogTypes(logs))
  }

  /** Every type of a log is offered, once, in the order of first
      appearance, and nothing else is offered. */
  lemma TypesSpec(logs: seq<AnomalyLog>)
    ensures Distinct(Types(logs))
    ensures forall i :: 0 <= i < |logs| ==> logs[i].logType in Types(logs)
    ensures forall k :: 0 <= k < |Types(logs)| ==> exists i :: 0 <= i < |logs| && logs[i].logType == Types(logs)[k]
    ensures forall k, m :: 0 <= k < m < |Types(logs)| ==> FirstBefore(LogTypes(logs), Types(logs)[k], Types(logs)[m])
  {
    UniqMembers(LogTypes(logs));
    UniqOrder(LogTypes(logs));
    forall i | 0 <= i < |logs| ensures logs[i].logType in Types(logs) {
      assert LogTypes(logs)[i] in LogTypes(logs);
    }
    forall k | 0 <= k < |Types(logs)|
      ensures exists i :: 0 <= i < |logs| && logs[i].logType == Types(logs)[k]
    {
      var i := FirstIndex(LogTypes(logs), Types(logs)[k]);
      assert logs[i].logType == Types(logs)[k];
    }
  }

  /** The filter query's answer for the given event type, anomaly status
      and search term. */
  type FilterQuery = (Option<string>, Option<bool>, string) -> Result<seq<AnomalyLog>>

  /** The dashboard's state. The filter bar (`Filters.Panel`) holds the
      same three filter values under the names `eventId`, `anomaly` and
      `term`; its callbacks reach the page through `SetFilters`. */
  class Page {
    var logs: seq<AnomalyLog>
    var filtered: seq<AnomalyLog>
    var loading: bool
    var error: Option<string>
    var logType: Option<string>
    var anomStatus: Option<bool>
    var searchTerm: string
    var refreshing: bool
    var totalCount: int

    /** The initial state: no logs, loading, no error, no filter. */
    constructor ()
      ensures logs == [] && filtered == [] && loading && error == None
      ensures logType == None && anomStatus == None && searchTerm == ""
      ensures !refreshing && totalCount == 0
    {
      logs, filtered, loading, error := [], [], true, None;
      logType, anomStatus, searchTerm := None, None, "";
      refreshing, totalCount := false, 0;
    }

    /** The event types the filter offers: those of all the fetched logs,
        not only of the filtered ones. */
    function EventIds(): seq<string>
      reads this
    {
      Types(logs)
    }

    /** `load()` with `fetched` the outcome of `fetchLogs()` and `count`
        that of `countTotalLogs()`, which is asked only after the fetch
        succeeded. A success replaces both lists; a failure records its
        message and keeps them; either way both flags end false and an
        earlier error stays. */
    method Load(fetched: Result<seq<AnomalyLog>>, count: Result<int>)
      modifies this
      ensures !loading && !refreshing
      ensures fetched.Ok? ==> logs == fetched.value && filtered == fetched.value
      ensures fetched.Ok? && count.Ok? ==> totalCount == count.value && error == old(error)
      ensures fetched.Ok? && count.Err? ==> totalCount == old(totalCount) && error == Some(count.msg)
      ensures fetched.Err? ==>
        logs == old(logs) && filtered == old(filtered) && totalCount == old(totalCount) && error == Some(fetched.msg)
      ensures old(error).Some? ==> error.Some?
      ensures logType == old(logType) && anomStatus == old(anomStatus) && searchTerm == old(searchTerm)
    {
      loading := true;
      refreshing := true;
      if fetched.Err? {
        error := Some(fetched.msg);
      } else {
        logs := fetched.value;
        filtered := fetched.value;
        if count.Err? {
          error := Some(count.msg);
        } else {
          totalCount := count.value;
        }
      }
      loading := false;
      refreshing := false;
    }

    /** `applyFilters()` answered by `query` on the current filter values:
        a success replaces the filtered list only, a failure records its
        message; loading ends false. */
    method ApplyFilters(query: FilterQuery)
      modifies this
      ensures var answer := query(old(logType), old(anomStatus), old(searchTerm));
        && (answer.Ok? ==> filtered == answer.value && error == old(error))
        && (answer.Err? ==> filtered == old(filtered) && error == Some(answer.msg))
      ensures !loading
      ensures old(error).Some? ==> error.Some?
      ensures logs == old(logs) && refreshing == old(refreshing) && totalCount == old(totalCount)
      ensures logType == old(logType) && anomStatus == old(anomStatus) && searchTerm == old(searchTerm)
    {
      loading := true;
      var answer := query(logType, anomStatus, searchTerm);
      if answer.Ok? {
        filtered := answer.value;
      } else {
        error := Some(answer.msg);
      }
      loading := false;
    }

    /** A filter callback: the new values are stored and, when one of them
        differs from before, the effect on `[logType, anomStatus,
        searchTerm]` reruns the filter query. */
    method SetFilters(t: Option<string>, a: Option<bool>, term: string, query: FilterQuery)
      modifies this
      ensures logType == t && anomStatus == a && searchTerm == term
      ensures (t, a, term) == (old(logType), old(anomStatus), old(searchTerm)) ==>
        filtered == old(filtered) && error == old(error) && loading == old(loading)
      ensures (t, a, term) != (old(logType), old(anomStatus), old(searchTerm)) ==>
        var answer := query(t, a, term);
        && (answer.Ok? ==> filtered == answer.value && error == old(error))
        && (answer.Err? ==> filtered == old(filtered) && error == Some(answer.msg))
        && !loading
      ensures old(error).Some? ==> error.Some?
      ensures logs == old(logs) && refreshing == old(refreshing) && totalCount == old(totalCount)
    {
      var changed := (t, a, term) != (logType, anomStatus, searchTerm);
      logType, anomStatus, searchTerm := t, a, term;
      if changed {
        ApplyFilters(query);
      }
    }
  }
}
