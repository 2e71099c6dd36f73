/** The log table of the dashboard (LogsTable.tsx): the best-effort split of
    a raw syslog line into time, component and content, the table order by
    `LineId`, and 15-rows-per-page pagination with its clamped navigation. */
module LogsTable {
  import opened Common
  import opened Logs
  import opened Sorting
  import Extract

  // ---------------------------------------------------------------------
  // parseLogLine: /^(\w+\s+\d+\s+\d{2}:\d{2}:\d{2})\s+(.+?):\s+(.+)$/

  /** `.` of a JavaScript regular expression without the `s` flag. */
  predicate IsDotChar(c: char) { c != '\n' && c != '\r' && c != '\U{2028}' && c != '\U{2029}' }

  datatype CharClass = Word | Space | Digit | Dot

  predicate InClass(c: char, cls: CharClass)
  {
    match cls
    case Word => IsWordChar(c)
    case Space => IsJsSpace(c)
    case Digit => IsDigit(c)
    case Dot => IsDotChar(c)
  }

  /** Every character of `s[i..j]` is in `cls`. */
  predicate All(s: string, i: nat, j: nat, cls: CharClass)
    requires i <= j <= |s|
  {
    forall k {:trigger InClass(s[k], cls)} :: i <= k < j ==> InClass(s[k], cls)
  }

  /** End of the maximal run of `cls` characters starting at `i`. */
  function Run(s: string, i: nat, cls: CharClass): (e: nat)
    requires i <= |s|
    ensures i <= e <= |s|
    decreases |s| - i
  {
    if i < |s| && InClass(s[i], cls) then Run(s, i + 1, cls) else i
  }

  /** The run is made of `cls` characters and stops where they stop. */
  lemma {:induction false} RunSpec(s: string, i: nat, cls: CharClass)
    requires i <= |s|
    ensures All(s, i, Run(s, i, cls), cls)
    ensures Run(s, i, cls) == |s| || !InClass(s[Run(s, i, cls)], cls)
    decreases |s| - i
  {
    if i < |s| && InClass(s[i], cls) {
      RunSpec(s, i + 1, cls);
    }
  }

  /** Any run of `cls` characters from `i` ends within the maximal one. */
  lemma {:induction false} RunMax(s: string, i: nat, j: nat, cls: CharClass)
    requires i <= j <= |s| && All(s, i, j, cls)
    ensures j <= Run(s, i, cls)
    decreases |s| - i
  {
    if i < j {
      assert InClass(s[i], cls);
      RunMax(s, i + 1, j, cls);
    }
  }

  /** A run that stops where the class stops is the maximal one. */
  lemma RunExact(s: string, i: nat, j: nat, cls: CharClass)
    requires i <= j <= |s| && All(s, i, j, cls) && (j == |s| || !InClass(s[j], cls))
    ensures Run(s, i, cls) == j
  {
    RunMax(s, i, j, cls);
    RunSpec(s, i, cls);
  }

  /** `t` splits as the first group of the pattern: word characters
      `t[..a]`, spaces `t[a..b]`, digits `t[b..c]`, spaces `t[c..d]` and a
      clock time "HH:MM:SS". */
  predicate TimeSplit(t: string, a: nat, b: nat, c: nat, d: nat)
  {
    0 < a < b < c < d && d + 8 == |t|
    && All(t, 0, a, Word) && All(t, a, b, Space) && All(t, b, c, Digit) && All(t, c, d, Space)
    && Extract.ClockAt(t, d)
  }

  ghost predicate IsTimeField(t: string)
  {
    exists a, b, c, d :: TimeSplit(t, a, b, c, d)
  }

  /** Where the first group ends. Each of its variable-length parts is
      followed by a character its quantifier cannot take, so backtracking
      never shortens one of them: the group is determined by the line. */
  function TimeEnd(line: string): (r: Option<nat>)
    ensures r.Some? ==> 8 < r.value <= |line| && IsTimeField(line[..r.value])
  {
    var a := Run(line, 0, Word);
    var b := Run(line, a, Space);
    var c := Run(line, b, Digit);
    var d := Run(line, c, Space);
    if 0 < a < b < c < d && Extract.ClockAt(line, d) then
      var t := line[..d + 8];
      assert TimeSplit(t, a, b, c, d) by {
        RunSpec(line, 0, Word);
        RunSpec(line, a, Space);
        RunSpec(line, b, Digit);
        RunSpec(line, c, Space);
        assert forall k :: 0 <= k < d + 8 ==> t[k] == line[k];
      }
      Some(d + 8)
    else None
  }

  /** The first group can end in one place only. */
  lemma TimeEndUnique(line: string, e: nat)
    requires e <= |line| && IsTimeField(line[..e])
    ensures TimeEnd(line) == Some(e)
  {
    var a: nat, b: nat, c: nat, d: nat :| TimeSplit(line[..e], a, b, c, d);
    TimeSplitOnLine(line, e, a, b, c, d);
    RunExact(line, 0, a, Word);
    RunExact(line, a, b, Space);
    RunExact(line, b, c, Digit);
    RunExact(line, c, d, Space);
  }

  /** The parts of a first group, read on the whole line: each run stops at
      a character of another class. */
  lemma TimeSplitOnLine(line: string, e: nat, a: nat, b: nat, c: nat, d: nat)
    requires e <= |line| && TimeSplit(line[..e], a, b, c, d)
    ensures d + 8 == e && 0 < a < b < c < d
    ensures All(line, 0, a, Word) && !InClass(line[a], Word)
    ensures All(line, a, b, Space) && !InClass(line[b], Space)
    ensures All(line, b, c, Digit) && !InClass(line[c], Digit)
    ensures All(line, c, d, Space) && !InClass(line[d], Space)
    ensures Extract.ClockAt(line, d)
  {
    var t := line[..e];
    assert forall k :: 0 <= k < e ==> t[k] == line[k];
    assert InClass(t[a], Space) && InClass(t[b], Digit) && InClass(t[c], Space) && IsDigit(t[d]);
  }

  /** `.+$` matches from `q`: a non-empty rest without line terminators. */
  predicate TailOk(line: string, q: nat)
  {
    q < |line| && All(line, q, |line|, Dot)
  }

  /** Content start for the `\s+(.+)$` that follows a colon, scanning the
      spaces from `i`: the greedy `\s+` takes the whole run of spaces and
      gives back one at a time until `.+$` matches, so the content starts
      after as many spaces as allow a match; `None` when none does. */
  function Content(line: string, i: nat): (r: Option<nat>)
    requires i <= |line|
    ensures r.Some? ==> i < r.value < |line|
    decreases |line| - i
  {
    if i < |line| && InClass(line[i], Space) then
      match Content(line, i + 1)
      case Some(q) => Some(q)
      case None => if TailOk(line, i + 1) then Some(i + 1) else None
    else None
  }

  /** The content found is preceded by spaces only and runs to the end of
      the line. */
  lemma {:induction false} ContentSpec(line: string, i: nat)
    requires i <= |line|
    ensures var r := Content(line, i);
      r.Some? ==> TailOk(line, r.value) && All(line, i, r.value, Space)
    decreases |line| - i
  {
    if i < |line| && InClass(line[i], Space) {
      ContentSpec(line, i + 1);
    }
  }

  /** Every way for `\s+(.+)$` to match from `i` leaves the content start at
      or before the one chosen. */
  lemma {:induction false} ContentMax(line: string, i: nat, q: nat)
    requires i < q <= |line| && All(line, i, q, Space) && TailOk(line, q)
    ensures Content(line, i).Some? && q <= Content(line, i).value
    decreases |line| - i
  {
    assert InClass(line[i], Space);
    if i + 1 < q {
      ContentMax(line, i + 1, q);
    }
  }

  /** The lazy `(.+?):` once it has taken the characters before `j`: the
      first colon at or after `j`, with only `.` characters before it, after
      which the rest of the pattern matches; with the content start found
      there. */
  function ColonFrom(line: string, j: nat): (r: Option<(nat, nat)>)
    requires j <= |line|
    ensures r.Some? ==> j <= r.value.0 < r.value.1 < |line|
    decreases |line| - j
  {
    if j == |line| then None
    else if line[j] == ':' && Content(line, j + 1).Some? then Some((j, Content(line, j + 1).value))
    else if InClass(line[j], Dot) then ColonFrom(line, j + 1)
    else None
  }

  lemma {:induction false} ColonFromSpec(line: string, c: nat, j: nat)
    requires c <= j <= |line| && All(line, c, j, Dot)
    ensures var r := ColonFrom(line, j);
      r.Some? ==> line[r.value.0] == ':' && All(line, c, r.value.0, Dot) && Content(line, r.value.0 + 1) == Some(r.value.1)
    decreases |line| - j
  {
    if j < |line| && !(line[j] == ':' && Content(line, j + 1).Some?) && InClass(line[j], Dot) {
      ColonFromSpec(line, c, j + 1);
    }
  }

  lemma {:induction false} ColonFromFirst(line: string, j: nat, k: nat)
    requires j <= k < |line| && All(line, j, k, Dot) && line[k] == ':' && Content(line, k + 1).Some?
    ensures ColonFrom(line, j).Some? && ColonFrom(line, j).value.0 <= k
    decreases k - j
  {
    if !(line[j] == ':' && Content(line, j + 1).Some?) {
      assert InClass(line[j], Dot);
      ColonFromFirst(line, j + 1, k);
    }
  }

  /** The component starting at `c` (its colon and the content start), or
      `None` when none can. */
  function Component(line: string, c: nat): (r: Option<(nat, nat)>)
    requires c <= |line|
    ensures r.Some? ==> c < r.value.0 < r.value.1 < |line|
  {
    if c < |line| && InClass(line[c], Dot) then ColonFrom(line, c + 1) else None
  }

  /** A component is a non-empty run of `.` characters up to a colon after
      which the content matches. */
  lemma ComponentSpec(line: string, c: nat)
    requires c <= |line|
    ensures var r := Component(line, c);
      r.Some? ==> line[r.value.0] == ':' && All(line, c, r.value.0, Dot) && Content(line, r.value.0 + 1) == Some(r.value.1)
  {
    if c < |line| && InClass(line[c], Dot) {
      ColonFromSpec(line, c, c + 1);
    }
  }

  /** The component ends at the first colon from which the rest matches. */
  lemma ComponentFirst(line: string, c: nat, k: nat)
    requires c < k < |line| && All(line, c, k, Dot) && line[k] == ':' && Content(line, k + 1).Some?
    ensures Component(line, c).Some? && Component(line, c).value.0 <= k
  {
    assert InClass(line[c], Dot);
    ColonFromFirst(line, c + 1, k);
  }

  /** The greedy `\s+` after the first group: `k` spaces first, then one
      fewer at a time. Returns component start, colon and content start. */
  function SpacesFrom(line: string, e: nat, k: nat): (r: Option<(nat, nat, nat)>)
    requires e + k <= |line|
    ensures r.Some? ==> e < r.value.0 <= e + k && r.value.0 < r.value.1 < r.value.2 < |line|
    decreases k
  {
    if k == 0 then None
    else
      match Component(line, e + k)
      case Some(jq) => Some((e + k, jq.0, jq.1))
      case None => SpacesFrom(line, e, k - 1)
  }

  lemma {:induction false} SpacesFromSpec(line: string, e: nat, k: nat)
    requires e + k <= |line|
    ensures var r := SpacesFrom(line, e, k);
      r.Some? ==> Component(line, r.value.0) == Some((r.value.1, r.value.2))
    decreases k
  {
    if k > 0 && Component(line, e + k).None? {
      SpacesFromSpec(line, e, k - 1);
    }
  }

  lemma {:induction false} SpacesFromMax(line: string, e: nat, k: nat, c: nat)
    requires e < c <= e + k <= |line| && Component(line, c).Some?
    ensures SpacesFrom(line, e, k).Some? && c <= SpacesFrom(line, e, k).value.0
    decreases k
  {
    if c < e + k && Component(line, e + k).None? {
      SpacesFromMax(line, e, k - 1, c);
    }
  }

  /** Where the pattern matches, if it does: the end of the first group,
      the component start, the colon and the content start. */
  function Split(line: string): (r: Option<(nat, nat, nat, nat)>)
    ensures r.Some? ==> 8 < r.value.0 < r.value.1 < r.value.2 < r.value.3 < |line|
  {
    match TimeEnd(line)
    case None => None
    case Some(e) =>
      match SpacesFrom(line, e, Run(line, e, Space) - e)
      case None => None
      case Some(cjq) => Some((e, cjq.0, cjq.1, cjq.2))
  }

  datatype LogParts = LogParts(time: string, component: string, content: string)

  /** `parseLogLine`: the three groups of the match, or the whole line as
      content when the pattern does not match. */
  function ParseLogLine(line: string): LogParts
  {
    match Split(line)
    case None => LogParts("", "", line)
    case Some(x) => LogParts(line[..x.0], line[x.1..x.2], line[x.3..])
  }

  /** One way for the whole pattern to match: the first group `line[..e]`,
      `k` spaces, the component up to the colon at `j`, `w` spaces and the
      content to the end of the line. */
  ghost predicate Match(line: string, e: nat, k: nat, j: nat, w: nat)
  {
    && e + k < j && j + 1 + w < |line|
    && IsTimeField(line[..e])
    && k >= 1 && All(line, e, e + k, Space)
    && All(line, e + k, j, Dot) && line[j] == ':'
    && w >= 1 && All(line, j + 1, j + 1 + w, Space)
    && All(line, j + 1 + w, |line|, Dot)
  }

  /** After the first group of a match, the greedy `\s+` stops no earlier
      than the match's own component start. */
  lemma MatchSpaces(line: string, e: nat, k: nat, j: nat, w: nat)
    requires Match(line, e, k, j, w)
    ensures var r := SpacesFrom(line, e, Run(line, e, Space) - e);
      r.Some? && e + k <= r.value.0
  {
    RunMax(line, e, e + k, Space);
    ContentMax(line, j + 1, j + 1 + w);
    ComponentFirst(line, e + k, j);
    SpacesFromMax(line, e, Run(line, e, Space) - e, e + k);
  }

  /** Any match is found, with the same first group and a component start
      no earlier than its own. */
  lemma MatchFound(line: string, e: nat, k: nat, j: nat, w: nat)
    requires Match(line, e, k, j, w)
    ensures Split(line).Some? && Split(line).value.0 == e && e + k <= Split(line).value.1
  {
    TimeEndUnique(line, e);
    MatchSpaces(line, e, k, j, w);
  }

  /** What the split reports is a match. */
  lemma Found(line: string)
    requires Split(line).Some?
    ensures var x := Split(line).value;
      Match(line, x.0, x.1 - x.0, x.2, x.3 - (x.2 + 1))
  {
    FoundAt(line, TimeEnd(line).value);
  }

  lemma FoundAt(line: string, e: nat)
    requires e <= |line| && IsTimeField(line[..e])
    requires SpacesFrom(line, e, Run(line, e, Space) - e).Some?
    ensures var cjq := SpacesFrom(line, e, Run(line, e, Space) - e).value;
      Match(line, e, cjq.0 - e, cjq.1, cjq.2 - (cjq.1 + 1))
  {
    var R := Run(line, e, Space);
    var cjq := SpacesFrom(line, e, R - e).value;
    SpacesFromSpec(line, e, R - e);
    ComponentSpec(line, cjq.0);
    ContentSpec(line, cjq.1 + 1);
    RunSpec(line, e, Space);
    assert All(line, e, cjq.0, Space);
  }

  /** Any match with first group `line[..e]` comes no earlier, in the order
      backtracking tries them, than the one found after that group. */
  lemma MatchOrderAt(line: string, e: nat, k: nat, j: nat, w: nat)
    requires Match(line, e, k, j, w)
    ensures var r := SpacesFrom(line, e, Run(line, e, Space) - e);
      r.Some? && (k < r.value.0 - e || (k == r.value.0 - e && (r.value.1 < j || (j == r.value.1 && w <= r.value.2 - (r.value.1 + 1)))))
  {
    MatchSpaces(line, e, k, j, w);
    var K := Run(line, e, Space) - e;
    var r := SpacesFrom(line, e, K).value;
    if e + k == r.0 {
      SpacesFromSpec(line, e, K);
      ComponentOrder(line, r.0, j, w);
    }
  }

  /** A component that could end at the colon at `j`, with `w` spaces after
      it, ends there or earlier, and when there, with at least `w` spaces. */
  lemma ComponentOrder(line: string, c: nat, j: nat, w: nat)
    requires c < j && j + 1 + w < |line| && All(line, c, j, Dot) && line[j] == ':'
    requires w >= 1 && All(line, j + 1, j + 1 + w, Space) && All(line, j + 1 + w, |line|, Dot)
    ensures var r := Component(line, c);
      r.Some? && (r.value.0 < j || (r.value.0 == j && j + 1 + w <= r.value.1))
  {
    ContentMax(line, j + 1, j + 1 + w);
    ComponentFirst(line, c, j);
    ComponentSpec(line, c);
  }

  /** Any match comes no earlier, in the order backtracking tries them, than
      the one the split reports. */
  lemma MatchOrder(line: string, e: nat, k: nat, j: nat, w: nat)
    requires Match(line, e, k, j, w)
    ensures Split(line).Some?
    ensures var x := Split(line).value;
      e == x.0 && (k < x.1 - x.0 || (k == x.1 - x.0 && (x.2 < j || (j == x.2 && w <= x.3 - (x.2 + 1)))))
  {
    TimeEndUnique(line, e);
    MatchOrderAt(line, e, k, j, w);
  }

  /** The pattern matches exactly when the split finds a time; otherwise the
      whole line is the content. */
  lemma ParseLogLineMatches(line: string)
    ensures (exists e: nat, k: nat, j: nat, w: nat :: Match(line, e, k, j, w)) <==> ParseLogLine(line).time != ""
    ensures ParseLogLine(line).time == "" ==> ParseLogLine(line) == LogParts("", "", line)
  {
    if exists e: nat, k: nat, j: nat, w: nat :: Match(line, e, k, j, w) {
      var e: nat, k: nat, j: nat, w: nat :| Match(line, e, k, j, w);
      MatchFound(line, e, k, j, w);
    }
    if Split(line).Some? {
      Found(line);
    }
  }

  /** On a match, the three parts are those of the match the backtracking
      reaches first: the most spaces after the time, then the shortest
      component, then the most spaces before the content. So `time` is a
      prefix of the line, `content` a non-empty suffix, and the component
      the shortest text before a colon that lets the rest match. */
  lemma ParseLogLineChoice(line: string)
    requires ParseLogLine(line).time != ""
    ensures exists e: nat, k: nat, j: nat, w: nat ::
      && Match(line, e, k, j, w)
      && ParseLogLine(line) == LogParts(line[..e], line[e + k..j], line[j + 1 + w..])
      && forall e': nat, k': nat, j': nat, w': nat :: Match(line, e', k', j', w') ==>
           e' == e && (k' < k || (k' == k && (j < j' || (j' == j && w' <= w))))
  {
    var x := Split(line).value;
    Found(line);
    forall e': nat, k': nat, j': nat, w': nat | Match(line, e', k', j', w')
      ensures e' == x.0 && (k' < x.1 - x.0 || (k' == x.1 - x.0 && (x.2 < j' || (j' == x.2 && w' <= x.3 - (x.2 + 1)))))
    {
      MatchOrder(line, e', k', j', w');
    }
    assert Match(line, x.0, x.1 - x.0, x.2, x.3 - (x.2 + 1));
  }

  // ---------------------------------------------------------------------
  // Ordering and pagination

  const PerPage := 15

  function LineIdKey(l: AnomalyLog): int { l.lineId }

  /** `[...anomalyLogs].sort((a, b) => a.LineId - b.LineId)` */
  function SortByLineId(logs: seq<AnomalyLog>): seq<AnomalyLog>
  {
    SortBy(logs, LineIdKey)
  }

  /** The table holds every log once, in ascending `LineId`, logs with equal
      ids in their order of arrival. */
  lemma SortByLineIdCorrect(logs: seq<AnomalyLog>)
    ensures multiset(SortByLineId(logs)) == multiset(logs)
    ensures forall i, j :: 0 <= i < j < |SortByLineId(logs)| ==> SortByLineId(logs)[i].lineId <= SortByLineId(logs)[j].lineId
    ensures forall id :: WithKey(SortByLineId(logs), LineIdKey, id) == WithKey(logs, LineIdKey, id)
  {
    SortByCorrect(logs, LineIdKey);
  }

  /** `Math.ceil(n / perPage)`: the fewest pages of 15 that hold `n` rows. */
  function TotalPages(n: nat): (t: nat)
    ensures t * PerPage >= n
    ensures t == 0 || (t - 1) * PerPage < n
  {
    (n + PerPage - 1) / PerPage
  }

  /** `sorted.slice((page - 1) * perPage, page * perPage)` */
  function PageSlice(sorted: seq<AnomalyLog>, page: int): (r: seq<AnomalyLog>)
    ensures page >= 1 ==> |r| <= PerPage
    ensures page >= 1 ==>
      var from := if (page - 1) * PerPage < |sorted| then (page - 1) * PerPage else |sorted|;
      var to := if page * PerPage < |sorted| then page * PerPage else |sorted|;
      r == sorted[from..to]
  {
    JsSlice(sorted, (page - 1) * PerPage, page * PerPage)
  }

  /** Pages 1 to `k`, one after the other. */
  function Pages(sorted: seq<AnomalyLog>, k: nat): seq<AnomalyLog>
  {
    if k == 0 then [] else Pages(sorted, k - 1) + PageSlice(sorted, k)
  }

  lemma {:induction false} PagesPrefix(sorted: seq<AnomalyLog>, k: nat)
    ensures Pages(sorted, k) == sorted[..if k * PerPage < |sorted| then k * PerPage else |sorted|]
  {
    if k > 0 {
      PagesPrefix(sorted, k - 1);
      var a := if (k - 1) * PerPage < |sorted| then (k - 1) * PerPage else |sorted|;
      var b := if k * PerPage < |sorted| then k * PerPage else |sorted|;
      assert sorted[..a] + sorted[a..b] == sorted[..b];
    }
  }

  /** Pages 1 to `totalPages`, concatenated, give back the whole sorted
      list: no row is skipped or shown twice. */
  lemma PagesCoverAll(sorted: seq<AnomalyLog>)
    ensures Pages(sorted, TotalPages(|sorted|)) == sorted
  {
    PagesPrefix(sorted, TotalPages(|sorted|));
  }

  /** The "Showing x to y of n" figures. */
  datatype RangeLabel = RangeLabel(first: int, last: int, total: nat)

  function ShownRange(page: int, n: nat): (r: RangeLabel)
    ensures 1 <= page <= TotalPages(n) ==> 1 <= r.first <= r.last <= n
    ensures page >= 1 && r.first <= r.last ==> r.last - r.first + 1 == |PageSlice(seq(n, i => Placeholder), page)|
  {
    RangeLabel((page - 1) * PerPage + 1, if page * PerPage < n then page * PerPage else n, n)
  }

  const Placeholder := AnomalyLog(0, "", "", "", "", "", 0, 0, false, 0, false, None)

  /** `page` is not reset when the logs change: a page past the last one
      shows no row... */
  lemma StalePage(sorted: seq<AnomalyLog>, page: int)
    requires page > TotalPages(|sorted|) && page >= 1
    ensures PageSlice(sorted, page) == []
  {
  }

  /** ...and its label reads backwards. */
  lemma StaleLabel(n: nat, page: int)
    requires page > TotalPages(n) && page >= 1
    ensures ShownRange(page, n).first > ShownRange(page, n).last
  {
  }

  // ---------------------------------------------------------------------
  // Navigation

  function PrevPage(p: int): int { if 1 > p - 1 then 1 else p - 1 }
  function NextPage(p: int, totalPages: nat): int { if totalPages < p + 1 then totalPages else p + 1 }

  /** From a page in range, every button lands on a page in range. */
  lemma NavigationInRange(p: int, totalPages: nat)
    requires 1 <= p <= totalPages
    ensures 1 <= PrevPage(p) <= totalPages && PrevPage(p) == (if p == 1 then 1 else p - 1)
    ensures 1 <= NextPage(p, totalPages) <= totalPages && NextPage(p, totalPages) == (if p == totalPages then p else p + 1)
  {
  }

  /** The `page` state of the table. */
  class Pager {
    var page: int

    constructor ()
      ensures page == 1
    {
      page := 1;
    }

    method Prev()
      modifies this
      ensures page == PrevPage(old(page))
      ensures old(page) >= 1 ==> page >= 1 && page <= old(page)
    {
      page := if 1 > page - 1 then 1 else page - 1;
    }

    method Next(totalPages: nat)
      modifies this
      ensures page == NextPage(old(page), totalPages)
      ensures page <= totalPages
    {
      page := if totalPages < page + 1 then totalPages else page + 1;
    }

    method First()
      modifies this
      ensures page == 1
    {
      page := 1;
    }

    method Last(totalPages: nat)
      modifies this
      ensures page == totalPages
    {
      page := totalPages;
    }
  }

  // ---------------------------------------------------------------------
  // Rendering

  datatype TableView = Loading | Failed(message: string) | NoData | Table(rows: seq<AnomalyLog>, pagination: bool)

  /** What the table renders: the spinner while loading, then a non-empty
      error, then the empty state, then the page with the pagination bar
      when there is more than one page. */
  function View(logs: seq<AnomalyLog>, loading: bool, error: Option<string>, page: int): (v: TableView)
    ensures v.Loading? <==> loading
    ensures v.Failed? <==> !loading && Truthy(error)
    ensures v.Failed? ==> v.message == error.value
    ensures v.NoData? <==> !loading && !Truthy(error) && logs == []
    ensures v.Table? ==> (v.pagination <==> |logs| > PerPage)
    ensures v.Table? ==> v.rows == PageSlice(SortByLineId(logs), page)
  {
    if loading then Loading
    else if Truthy(error) then Failed(error.value)
    else
      var sorted := SortByLineId(logs);
      SortByCorrect(logs, LineIdKey);
      if |sorted| == 0 then NoData
      else Table(PageSlice(sorted, page), TotalPages(|sorted|) > 1)
  }
}
