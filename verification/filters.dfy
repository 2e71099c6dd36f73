/** The filter bar (components/dashboard/Filters.tsx): whether any filter is
    active, the count on its badge, the two selects' value mappings, and the
    panel's local search input beside the filter values it reports to the
    dashboard. */
module Filters {
  import opened Common

  /** `isFiltersActive`: an event type or an anomaly status is chosen, even
      an empty one, or the search term is not empty. */
  predicate IsFiltersActive(eventId: Option<string>, anomaly: Option<bool>, term: string)
  {
    eventId.Some? || anomaly.Some? || term != ""
  }

  /** The number on the badge: one for a non-empty event type, one for a
      chosen anomaly status; the search term is never counted. */
  function BadgeCount(eventId: Option<string>, anomaly: Option<bool>): (n: nat)
    ensures n <= 2
    ensures n == 0 <==> !Truthy(eventId) && anomaly.None?
    ensures n == 2 <==> Truthy(eventId) && anomaly.Some?
  {
    (if Truthy(eventId) then 1 else 0) + (if anomaly.Some? then 1 else 0)
  }

  /** A badge that counts something is shown, but an active filter can show
      a badge of zero: a search term alone is not counted. */
  lemma BadgeAndActive(eventId: Option<string>, anomaly: Option<bool>, term: string)
    ensures BadgeCount(eventId, anomaly) > 0 ==> IsFiltersActive(eventId, anomaly, term)
    ensures term != "" ==> IsFiltersActive(None, None, term) && BadgeCount(None, None) == 0
  {
  }

  // ---------------------------------------------------------------------
  // The selects

  /** The anomaly select's change handler: '' is no status, 'true' is true,
      any other value false. */
  function AnomalyFromSelect(v: string): (a: Option<bool>)
    ensures a.None? <==> v == ""
    ensures a == Some(true) <==> v == "true"
  {
    if v == "" then None else Some(v == "true")
  }

  /** The anomaly select's displayed value: '' or the boolean's
      `toString()`. */
  function AnomalySelectValue(a: Option<bool>): (v: string)
    ensures v == "" || v == "true" || v == "false"
  {
    match a
    case None => ""
    case Some(b) => if b then "true" else "false"
  }

  /** A status shown in the select and chosen again is the same status, and
      each of the select's three options shows as itself once chosen. */
  lemma AnomalySelectRoundTrip(a: Option<bool>, v: string)
    ensures AnomalyFromSelect(AnomalySelectValue(a)) == a
    ensures v == "" || v == "true" || v == "false" ==> AnomalySelectValue(AnomalyFromSelect(v)) == v
  {
  }

  /** The event select's change handler: `value || undefined`. */
  function EventFromSelect(v: string): (e: Option<string>)
    ensures e.None? <==> v == ""
    ensures e.Some? ==> e.value == v
  {
    if v == "" then None else Some(v)
  }

  /** The event select's displayed value: `selectedEventId || ''`. */
  function EventSelectValue(e: Option<string>): (v: string)
    ensures Truthy(e) ==> v == e.value
    ensures !Truthy(e) ==> v == ""
  {
    OrElse(e, "")
  }

  /** Choosing an option and displaying it gives the option back; a chosen
      type displays as itself unless it is the empty string. */
  lemma EventSelectRoundTrip(e: Option<string>, v: string)
    ensures EventSelectValue(EventFromSelect(v)) == v
    ensures e != Some("") ==> EventFromSelect(EventSelectValue(e)) == e
  {
  }

  // ---------------------------------------------------------------------
  // The panel

  /** The filter bar and the filter values it reports through its
      callbacks: `eventId`, `anomaly` and `term` are the dashboard's
      `logType`, `anomStatus` and `searchTerm`. */
  class Panel {
    var searchInput: string
    var open: bool
    var eventId: Option<string>
    var anomaly: Option<bool>
    var term: string

    /** The input starts from the current search term; the panel is
        closed. */
    constructor (eventId0: Option<string>, anomaly0: Option<bool>, term0: string)
      ensures searchInput == term0 && !open
      ensures eventId == eventId0 && anomaly == anomaly0 && term == term0
    {
      searchInput, open := term0, false;
      eventId, anomaly, term := eventId0, anomaly0, term0;
    }

    predicate Active()
      reads this
    {
      IsFiltersActive(eventId, anomaly, term)
    }

    /** `handleClearFilters`: both selects cleared, the input emptied and
        the empty search reported, so no filter is active any more. */
    method ClearFilters()
      modifies this
      ensures eventId == None && anomaly == None && searchInput == "" && term == ""
      ensures !Active()
      ensures open == old(open)
    {
      eventId := None;
      anomaly := None;
      searchInput := "";
      term := "";
    }

    /** The X button: only the local input is emptied; the filters, the
        reported search term included, are untouched until the debounce
        fires. */
    method ClearSearchInput()
      modifies this
      ensures searchInput == ""
      ensures eventId == old(eventId) && anomaly == old(anomaly) && term == old(term) && open == old(open)
    {
      searchInput := "";
    }

    method Type(text: string)
      modifies this
      ensures searchInput == text
      ensures eventId == old(eventId) && anomaly == old(anomaly) && term == old(term) && open == old(open)
    {
      searchInput := text;
    }

    /** The debounced effect once it fires: the input is reported as the
        search term. */
    method ReportSearch()
      modifies this
      ensures term == searchInput && searchInput == old(searchInput)
      ensures eventId == old(eventId) && anomaly == old(anomaly) && open == old(open)
    {
      term := searchInput;
    }

    method Toggle()
      modifies this
      ensures open == !old(open)
      ensures searchInput == old(searchInput) && eventId == old(eventId) && anomaly == old(anomaly) && term == old(term)
    {
      open := !open;
    }

    method SelectEvent(v: string)
      modifies this
      ensures eventId == EventFromSelect(v)
      ensures searchInput == old(searchInput) && anomaly == old(anomaly) && term == old(term) && open == old(open)
    {
      eventId := if v == "" then None else Some(v);
    }

    method SelectAnomaly(v: string)
      modifies this
      ensures anomaly == AnomalyFromSelect(v)
      ensures searchInput == old(searchInput) && eventId == old(eventId) && term == old(term) && open == old(open)
    {
      if v == "" {
        anomaly := None;
      } else {
        anomaly := Some(v == "true");
      }
    }
  }
}
