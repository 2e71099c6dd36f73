/** The meaning of `classify_line` and `ingest_logs` (backend/app.py) as
    functions over the three MongoDB collections the classifier keeps, here
    maps keyed by IP address (and a list for the access log). The class in
    backend.dfy performs the same updates in place and is proved against
    these functions; the lemmas below state what the backend promises. */
module Classifier {
  import opened Common
  import opened Extract

  /** A document of the `memory` collection: the last failed-login time of
      an IP and the length of its current burst. */
  datatype Burst = Burst(lastSeen: int, count: int)

  /** A document of the `access_attempts` collection. */
  datatype Access = Access(ip: string, timestamp: int)

  /** `memory` (burst counters), `failed_attempts` (24-hour failure
      histories) and `access_attempts`. */
  datatype Stores = Stores(memory: map<string, Burst>, failed: map<string, seq<int>>, access: seq<Access>)

  /** `(anomaly, log_type)`; the anomaly is the string "Yes" or "No". */
  datatype Verdict = Verdict(anomaly: string, logType: string)

  /** A call of `classify_line` either raises (the timestamp is not a date
      `strptime` accepts) before touching any collection, or returns a
      verdict together with the updated collections. */
  datatype Outcome = Raised | Classified(verdict: Verdict, stores: Stores)

  /** Python's `sub in s`. */
  predicate Contains(s: string, sub: string)
    decreases |s|
  {
    sub <= s || (s != [] && Contains(s[1..], sub))
  }

  predicate IsAuthFailure(line: string) { Contains(line, "sshd") && Contains(line, "authentication failure") }
  predicate IsAcceptedPassword(line: string) { Contains(line, "sshd") && Contains(line, "Accepted password") }
  predicate IsServiceIssue(line: string) { Contains(line, "ALERT") || Contains(line, "exited abnormally") }

  /** What `classify_line` reads off a line: its `rhost=` address and its
      time in seconds. */
  datatype Parsed = Parsed(ip: Option<string>, time: Option<int>)

  /** `None` when the line starts with a timestamp that `strptime` rejects:
      the call then raises `ValueError` before touching any collection. */
  function Parse(line: string): (r: Option<Parsed>)
    ensures r.None? <==> ExtractDatetime(line).Some? && !ValidStamp(ExtractDatetime(line).value)
    ensures r.Some? ==> r.value.ip == ExtractIp(line)
    ensures r.Some? ==> (r.value.time.Some? <==> ExtractDatetime(line).Some?)
    ensures r.Some? && ExtractDatetime(line).Some? ==> r.value.time == StampSeconds(ExtractDatetime(line).value)
  {
    var dt := ExtractDatetime(line);
    if dt.None? then Some(Parsed(ExtractIp(line), None))
    else
      var t := StampSeconds(dt.value);
      if t.None? then None else Some(Parsed(ExtractIp(line), Some(t.value)))
  }

  /** Failure times kept in a history: those at most a day before `t`,
      each as often as it occurs. */
  function Prune(times: seq<int>, t: int): (r: seq<int>)
    ensures |r| <= |times|
    ensures forall x :: multiset(r)[x] == if t - x <= 86400 then multiset(times)[x] else 0
    ensures forall x :: x in r <==> x in times && t - x <= 86400
  {
    if times == [] then []
    else
      var rest := Prune(times[1..], t);
      assert times == [times[0]] + times[1..];
      if t - times[0] <= 86400 then [times[0]] + rest else rest
  }

  /** The pruning is a filter: it keeps the surviving times in their order,
      one list after another, and decides each time on its own. */
  lemma {:induction false} PruneFilter(a: seq<int>, b: seq<int>, t: int)
    ensures Prune(a + b, t) == Prune(a, t) + Prune(b, t)
    ensures |a| == 1 ==> Prune(a, t) == if t - a[0] <= 86400 then a else []
  {
    if a != [] {
      assert (a + b)[0] == a[0] && (a + b)[1..] == a[1..] + b;
      PruneFilter(a[1..], b, t);
      var head := if t - a[0] <= 86400 then [a[0]] else [];
      assert Prune(a + b, t) == head + Prune(a[1..] + b, t);
      assert Prune(a, t) == head + Prune(a[1..], t);
      assert head + (Prune(a[1..], t) + Prune(b, t)) == (head + Prune(a[1..], t)) + Prune(b, t);
    } else {
      assert a + b == b;
    }
  }

  /** The distinct IPs of the access records made at or after `since`. */
  function RecentIps(access: seq<Access>, since: int): (ips: set<string>)
    ensures forall ip :: ip in ips <==>
      exists i :: 0 <= i < |access| && access[i].ip == ip && access[i].timestamp >= since
  {
    if access == [] then {}
    else
      var init := access[..|access| - 1];
      var last := access[|access| - 1];
      var ips := RecentIps(init, since) + (if last.timestamp >= since then {last.ip} else {});
      assert forall i :: 0 <= i < |init| ==> init[i] == access[i];
      ips
  }

  /** The burst record after a failed login of `ip` at `t`: the count grows
      while failures come within ten seconds of the previous one and starts
      again from 1 otherwise. */
  function NextBurst(memory: map<string, Burst>, ip: string, t: int): Burst
  {
    if ip in memory && Within10Seconds(t, memory[ip].lastSeen) then Burst(t, memory[ip].count + 1)
    else Burst(t, 1)
  }

  function History(failed: map<string, seq<int>>, ip: string): seq<int>
  {
    if ip in failed then failed[ip] else []
  }

  /** The log type: the last matching test of the source wins. */
  function LogType(line: string): string
  {
    if IsServiceIssue(line) then "Service Issue"
    else if IsAcceptedPassword(line) then "Successful Login"
    else if IsAuthFailure(line) then "Auth Failure"
    else "Normal"
  }

  /** The sshd authentication-failure rule: the updated burst counters and
      failure histories, and whether the burst or the history is anomalous. */
  function FailureRule(s: Stores, line: string, p: Parsed): (Stores, bool)
  {
    if IsAuthFailure(line) && p.ip.Some? && p.time.Some? then
      var ip, t := p.ip.value, p.time.value;
      var burst := NextBurst(s.memory, ip, t);
      var times := Prune(History(s.failed, ip), t) + [t];
      (s.(memory := s.memory[ip := burst], failed := s.failed[ip := times]), burst.count > 3 || |times| > 20)
    else (s, false)
  }

  /** The accepted-password rule: more than three recorded failures make the
      login anomalous and delete the history. */
  function LoginRule(s: Stores, line: string, p: Parsed): (Stores, bool)
  {
    if IsAcceptedPassword(line) && p.ip.Some? && p.ip.value in s.failed && |s.failed[p.ip.value]| > 3 then
      (s.(failed := s.failed - {p.ip.value}), true)
    else (s, false)
  }

  /** The access rule: record an access at `now` and count the distinct IPs
      of the last five seconds. */
  function AccessRule(s: Stores, p: Parsed, now: int): (Stores, bool)
  {
    if p.ip.Some? && p.time.Some? then
      var access := s.access + [Access(p.ip.value, now)];
      (s.(access := access), |RecentIps(access, now - 5)| > 5)
    else (s, false)
  }

  /** `classify_line` once the line has parsed, the rules applied in the
      source's order. */
  function Step(s: Stores, line: string, p: Parsed, now: int): (Verdict, Stores)
  {
    var (s1, failure) := FailureRule(s, line, p);
    var (s2, login) := LoginRule(s1, line, p);
    var (s3, crowd) := AccessRule(s2, p, now);
    var anomalous := failure || login || crowd || IsServiceIssue(line);
    (Verdict(if anomalous then "Yes" else "No", LogType(line)), s3)
  }

  /** `classify_line(line)`, with the wall clock reading `now`. */
  function Classify(s: Stores, line: string, now: int): Outcome
  {
    match Parse(line)
    case None => Raised
    case Some(p) => var (v, s') := Step(s, line, p, now); Classified(v, s')
  }

  // ---------------------------------------------------------------------
  // What classify_line promises, stated of a parsed line `p`
  // (`Classify` applies `Step` to `Parse(line)`).

  /** The anomaly is always the string "Yes" or "No". */
  lemma AnomalyIsYesOrNo(s: Stores, line: string, p: Parsed, now: int)
    ensures Step(s, line, p, now).0.anomaly in {"Yes", "No"}
  {
  }

  /** An alert or an abnormal exit is always a "Yes" service issue, whatever
      else the line says. */
  lemma ServiceIssueOverrides(s: Stores, line: string, p: Parsed, now: int)
    requires IsServiceIssue(line)
    ensures Step(s, line, p, now).0 == Verdict("Yes", "Service Issue")
  {
  }

  /** A line that triggers no rule is ("No", "Normal") and changes nothing. */
  lemma QuietLine(s: Stores, line: string, p: Parsed, now: int)
    requires !IsServiceIssue(line) && !IsAuthFailure(line) && !IsAcceptedPassword(line)
    requires p.ip.None? || p.time.None?
    ensures Step(s, line, p, now) == (Verdict("No", "Normal"), s)
  {
  }

  /** The burst counter of an sshd authentication failure: an unseen IP gets
      count 1, a failure within ten seconds (either way, inclusive) of the
      last one increments the count, any other resets it to 1; the last
      sighting is always updated, no other IP's record changes, and a count
      above 3 makes the line anomalous. */
  lemma AuthFailureBurst(s: Stores, line: string, p: Parsed, now: int)
    requires IsAuthFailure(line) && p.ip.Some? && p.time.Some?
    ensures var ip, t := p.ip.value, p.time.value;
      var (v, s') := Step(s, line, p, now);
      && s'.memory.Keys == s.memory.Keys + {ip}
      && s'.memory[ip].lastSeen == t
      && (ip !in s.memory ==> s'.memory[ip].count == 1)
      && (ip in s.memory && -10 <= t - s.memory[ip].lastSeen <= 10 ==> s'.memory[ip].count == s.memory[ip].count + 1)
      && (ip in s.memory && !(-10 <= t - s.memory[ip].lastSeen <= 10) ==> s'.memory[ip].count == 1)
      && (forall other :: other in s.memory && other != ip ==> s'.memory[other] == s.memory[other])
      && (s'.memory[ip].count > 3 ==> v.anomaly == "Yes")
  {
  }

  /** The failure history of an IP keeps the earlier times at most a day
      before the failure, in order and with repetitions, and then records
      the failure last; more than twenty entries make the line anomalous,
      and no other IP's history changes. (An accepted-password clause on
      the same line may delete the history again.) */
  lemma AuthFailureHistory(s: Stores, line: string, p: Parsed, now: int)
    requires IsAuthFailure(line) && !IsAcceptedPassword(line) && p.ip.Some? && p.time.Some?
    ensures var ip, t := p.ip.value, p.time.value;
      var (v, s') := Step(s, line, p, now);
      && ip in s'.failed
      && s'.failed[ip] == Prune(History(s.failed, ip), t) + [t]
      && (|s'.failed[ip]| > 20 ==> v.anomaly == "Yes")
      && (forall other :: other != ip ==> (other in s'.failed <==> other in s.failed))
      && (forall other :: other != ip && other in s.failed ==> s'.failed[other] == s.failed[other])
  {
  }

  /** An accepted password after more than three recorded failures is
      anomalous and deletes the IP's history; with three or fewer the history
      is left as it was. */
  lemma SuccessfulLogin(s: Stores, line: string, p: Parsed, now: int)
    requires IsAcceptedPassword(line) && !IsAuthFailure(line) && !IsServiceIssue(line) && p.ip.Some?
    ensures var ip := p.ip.value;
      var (v, s') := Step(s, line, p, now);
      && v.logType == "Successful Login"
      && (|History(s.failed, ip)| > 3 ==> v.anomaly == "Yes" && s'.failed == s.failed - {ip})
      && (|History(s.failed, ip)| <= 3 ==> s'.failed == s.failed)
  {
  }

  /** Every line with an IP and a time records an access at `now`; the line
      is anomalous when more than five distinct IPs accessed in the five
      seconds up to `now`. */
  lemma AccessWindow(s: Stores, line: string, p: Parsed, now: int)
    requires p.ip.Some? && p.time.Some?
    ensures var (v, s') := Step(s, line, p, now);
      && s'.access == s.access + [Access(p.ip.value, now)]
      && (|RecentIps(s'.access, now - 5)| > 5 ==> v.anomaly == "Yes")
  {
  }

  /** The history the accepted-password rule looks at: the IP's history
      once the authentication-failure rule of the same line has run. */
  function LoginHistory(s: Stores, line: string, p: Parsed): nat
    requires p.ip.Some?
  {
    var ip := p.ip.value;
    if IsAuthFailure(line) && p.time.Some? then |Prune(History(s.failed, ip), p.time.value)| + 1
    else |History(s.failed, ip)|
  }

  /** The verdict is "Yes" exactly when one of the five rules fires: a
      service issue, a burst of more than three failures, more than twenty
      failures in a day, an accepted password after more than three
      failures, or more than five distinct IPs in the last five seconds;
      otherwise it is "No". */
  lemma AnomalyExactly(s: Stores, line: string, p: Parsed, now: int)
    ensures var (v, s') := Step(s, line, p, now);
      var failure := IsAuthFailure(line) && p.ip.Some? && p.time.Some?;
      && (v.anomaly == "Yes" <==>
        || IsServiceIssue(line)
        || (failure && s'.memory[p.ip.value].count > 3)
        || (failure && |Prune(History(s.failed, p.ip.value), p.time.value)| + 1 > 20)
        || (IsAcceptedPassword(line) && p.ip.Some? && LoginHistory(s, line, p) > 3)
        || (p.ip.Some? && p.time.Some? && |RecentIps(s'.access, now - 5)| > 5))
      && (v.anomaly == "No" <==> v.anomaly != "Yes")
  {
  }

  /** The log type is decided by the last rule that matches. */
  lemma LogTypeOrder(s: Stores, line: string, p: Parsed, now: int)
    ensures var v := Step(s, line, p, now).0;
      && (v.logType == "Service Issue" <==> IsServiceIssue(line))
      && (v.logType == "Successful Login" <==> !IsServiceIssue(line) && IsAcceptedPassword(line))
      && (v.logType == "Auth Failure" <==> !IsServiceIssue(line) && !IsAcceptedPassword(line) && IsAuthFailure(line))
      && (v.logType == "Normal" <==> !IsServiceIssue(line) && !IsAcceptedPassword(line) && !IsAuthFailure(line))
  {
  }
}
