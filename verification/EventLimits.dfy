/** The event monitor's rate limiter and debouncer, and the violation tracker: pruned histories against full ones. */
module EventLimits {
  import opened Prelude

  // ---------------------------------------------------------------- sequences of times

  function After(cutoff: int): int -> bool { (t: int) => t > cutoff }

  /** The half-open span after `from` of the given length. */
  function Within(from: int, length: int): int -> bool { (t: int) => from < t <= from + length }

  /** Dropping the old times in two goes keeps what one go keeps. */
  lemma {:induction false} PruneTwice(s: seq<int>, early: int, late: int)
    requires early <= late
    ensures Filter(After(late), Filter(After(early), s)) == Filter(After(late), s)
  {
    if s != [] {
      var rest := Filter(After(early), s[1..]);
      PruneTwice(s[1..], early, late);
      if s[0] > early {
        FilterCons(After(late), s[0], rest);
      }
    }
  }

  // ---------------------------------------------------------------- the rate limiter

  /** The rule over all accepted times: fewer than `most` of them lie in the last window. */
  predicate FullAllows(most: int, window: int, accepted: seq<int>, now: int) {
    |Filter(After(now - window), accepted)| < most
  }

  /** The times the full rule accepts, one request after the other. */
  function Accepted(most: int, window: int, requests: seq<int>): (accepted: seq<int>) {
    if requests == [] then []
    else
      var before, now := Accepted(most, window, requests[..|requests| - 1]), requests[|requests| - 1];
      if FullAllows(most, window, before, now) then before + [now] else before
  }

  /** What the limiter keeps after these requests. */
  function Kept(most: int, window: int, requests: seq<int>): seq<int> {
    if requests == [] then []
    else
      var now := requests[|requests| - 1];
      var recent := Filter(After(now - window), Kept(most, window, requests[..|requests| - 1]));
      if |recent| >= most then recent else recent + [now]
  }

  lemma {:induction false} AcceptedAreRequests(most: int, window: int, requests: seq<int>)
    ensures forall t :: t in Accepted(most, window, requests) ==> t in requests
  {
    if requests != [] {
      AcceptedAreRequests(most, window, requests[..|requests| - 1]);
      assert requests == requests[..|requests| - 1] + [requests[|requests| - 1]];
    }
  }

  lemma {:induction false} AscendingFront(requests: seq<int>, now: int)
    requires Ascending(requests + [now]) && requests != []
    ensures var n := |requests| - 1; Ascending(requests[..n] + [requests[n]]) && requests[n] <= now
  {
    var n, all := |requests| - 1, requests + [now];
    assert requests[..n] + [requests[n]] == requests;
    assert forall i :: 0 <= i < |requests| ==> requests[i] == all[i];
    assert all[n] <= all[n + 1];
  }

  /** Under a clock that does not run back, pruning loses nothing the rule looks at. */
  lemma {:induction false} KeptAnswersLikeAccepted(most: int, window: int, requests: seq<int>, now: int)
    requires Ascending(requests + [now])
    ensures Filter(After(now - window), Kept(most, window, requests)) == Filter(After(now - window), Accepted(most, window, requests))
  {
    if requests != [] {
      AscendingFront(requests, now);
      var n := |requests| - 1;
      KeptAnswersLikeAccepted(most, window, requests[..n], requests[n]);
      PruneStep(most, window, Kept(most, window, requests[..n]), Accepted(most, window, requests[..n]), requests[n], now);
    }
  }

  lemma {:induction false} PruneStep(most: int, window: int, kept: seq<int>, accepted: seq<int>, last: int, now: int)
    requires last <= now && Filter(After(last - window), kept) == Filter(After(last - window), accepted)
    ensures var recent := Filter(After(last - window), kept);
            Filter(After(now - window), if |recent| >= most then recent else recent + [last])
            == Filter(After(now - window), if |recent| < most then accepted + [last] else accepted)
  {
    var recent := Filter(After(last - window), kept);
    PruneTwice(kept, last - window, now - window);
    PruneTwice(accepted, last - window, now - window);
    FilterSnoc(After(now - window), recent, last);
    FilterSnoc(After(now - window), accepted, last);
  }

  /** So the limiter accepts exactly when fewer than `most` accepted events lie in the last window. */
  lemma {:induction false} LimiterFollowsTheFullRule(most: int, window: int, requests: seq<int>, now: int)
    requires Ascending(requests + [now])
    ensures |Filter(After(now - window), Kept(most, window, requests))| < most
            <==> FullAllows(most, window, Accepted(most, window, requests), now)
  {
    KeptAnswersLikeAccepted(most, window, requests, now);
  }

  /** No half-open span of the window's length ever holds more than `most` accepted events. */
  lemma {:induction false} NoWindowHoldsMore(most: int, window: int, requests: seq<int>, from: int)
    requires Ascending(requests)
    ensures |Filter(Within(from, window), Accepted(most, window, requests))| <= Max(most, 0)
  {
    if requests != [] {
      var n := |requests| - 1;
      var now, front := requests[n], requests[..n];
      NoWindowHoldsMore(most, window, front, from);
      var before := Accepted(most, window, front);
      FilterSnoc(Within(from, window), before, now);
      if from < now <= from + window {
        FilterShorter(Within(from, window), After(now - window), before);
      }
    }
  }

  class EventRateLimiter {
    const maxEvents: int
    const window: int
    var timestamps: seq<int>
    /** The requests so far, for the specification. */
    ghost var requests: seq<int>

    ghost predicate Valid()
      reads this
    {
      timestamps == Kept(maxEvents, window, requests) && Ascending(requests)
    }

    constructor (most: int, seconds: int)
      ensures Valid() && maxEvents == most && window == seconds && requests == []
    {
      maxEvents, window, timestamps, requests := most, seconds, [], [];
    }

    method Allow(now: int) returns (allowed: bool)
      requires Valid() && Ascending(requests + [now])
      modifies this
      ensures Valid() && requests == old(requests) + [now]
      ensures allowed <==> FullAllows(maxEvents, window, Accepted(maxEvents, window, old(requests)), now)
      ensures Accepted(maxEvents, window, requests)
           == Accepted(maxEvents, window, old(requests)) + if allowed then [now] else []
    {
      LimiterFollowsTheFullRule(maxEvents, window, requests, now);
      assert (requests + [now])[..|requests|] == requests;
      timestamps := Filter(After(now - window), timestamps);
      requests := requests + [now];
      allowed := |timestamps| < maxEvents;
      if allowed {
        timestamps := timestamps + [now];
      }
    }
  }

  // ---------------------------------------------------------------- the debouncer

  datatype Event = Event(key: (string, string), at: int)

  type Times = map<(string, string), int>

  predicate InOrder(events: seq<Event>) {
    forall i, j :: 0 <= i < j < |events| ==> events[i].at <= events[j].at
  }

  predicate TooClose(last: Times, e: Event, debounce: int) {
    e.key in last && e.at - last[e.key] < debounce
  }

  function Seen(last: Times, e: Event, debounce: int): Times {
    if TooClose(last, e, debounce) then last else last[e.key := e.at]
  }

  /** The last accepted time of every key, nothing purged. */
  function FullTimes(events: seq<Event>, debounce: int): Times {
    if events == [] then map[]
    else Seen(FullTimes(events[..|events| - 1], debounce), events[|events| - 1], debounce)
  }

  function Purged(recent: Times, cutoff: int): Times {
    map k | k in recent && recent[k] > cutoff :: recent[k]
  }

  /** What the debouncer keeps. */
  function RecentTimes(events: seq<Event>, debounce: int): Times {
    if events == [] then map[]
    else
      var e := events[|events| - 1];
      Seen(Purged(RecentTimes(events[..|events| - 1], debounce), e.at - 2 * debounce), e, debounce)
  }

  /** The purged table agrees with the full one, except for entries too old to matter. */
  ghost predicate Agrees(recent: Times, full: Times, now: int, debounce: int) {
    && (forall k :: k in recent ==> k in full && recent[k] == full[k])
    && (forall k :: k in full ==> full[k] <= now && (k in recent || now - full[k] >= debounce))
  }

  lemma {:induction false} PurgingKeepsAgreement(recent: Times, full: Times, before: int, e: Event, debounce: int)
    requires Agrees(recent, full, before, debounce) && before <= e.at
    ensures TooClose(Purged(recent, e.at - 2 * debounce), e, debounce) <==> TooClose(full, e, debounce)
    ensures Agrees(Seen(Purged(recent, e.at - 2 * debounce), e, debounce), Seen(full, e, debounce), e.at, debounce)
  {
  }

  lemma {:induction false} TablesAgree(events: seq<Event>, debounce: int, now: int)
    requires InOrder(events) && (events != [] ==> events[|events| - 1].at <= now)
    ensures Agrees(RecentTimes(events, debounce), FullTimes(events, debounce), now, debounce)
  {
    if events != [] {
      var n := |events| - 1;
      var e, front := events[n], events[..n];
      TablesAgree(front, debounce, e.at);
      PurgingKeepsAgreement(RecentTimes(front, debounce), FullTimes(front, debounce), e.at, e, debounce);
    }
  }

  /** The debouncer decides like one that never forgets. */
  lemma {:induction false} PurgingChangesNoDecision(events: seq<Event>, debounce: int, e: Event)
    requires InOrder(events + [e])
    ensures TooClose(Purged(RecentTimes(events, debounce), e.at - 2 * debounce), e, debounce)
            <==> TooClose(FullTimes(events, debounce), e, debounce)
  {
    var all := events + [e];
    assert forall i :: 0 <= i < |events| ==> all[i] == events[i];
    assert all[|events|] == e;
    if events != [] {
      assert all[|events| - 1].at <= all[|events|].at;
    }
    TablesAgree(events, debounce, e.at);
    PurgingKeepsAgreement(RecentTimes(events, debounce), FullTimes(events, debounce), e.at, e, debounce);
  }

  /** The event at `i` was let through. */
  predicate Passed(events: seq<Event>, debounce: int, i: nat)
    requires i < |events|
  {
    !TooClose(FullTimes(events[..i], debounce), events[i], debounce)
  }

  /** The event at `i` is the last of this key that was let through. */
  predicate LastPassed(events: seq<Event>, debounce: int, key: (string, string), i: nat) {
    && i < |events| && events[i].key == key && Passed(events, debounce, i)
    && forall j :: i < j < |events| && events[j].key == key ==> !Passed(events, debounce, j)
  }

  lemma {:induction false} PassedInFront(events: seq<Event>, debounce: int, n: nat, i: nat)
    requires i < n <= |events|
    ensures Passed(events[..n], debounce, i) == Passed(events, debounce, i)
  {
    assert events[..n][..i] == events[..i];
  }

  /** The table holds, for every key, the time of the last event of that key that was let through. */
  lemma {:induction false} TableHoldsTheLastPassed(events: seq<Event>, debounce: int, key: (string, string)) returns (i: nat)
    requires key in FullTimes(events, debounce)
    ensures LastPassed(events, debounce, key, i) && events[i].at == FullTimes(events, debounce)[key]
  {
    var n := |events| - 1;
    var e, front := events[n], events[..n];
    if e.key == key && Passed(events, debounce, n) {
      i := n;
    } else {
      i := TableHoldsTheLastPassed(front, debounce, key);
      forall j | 0 <= j < n
        ensures front[j] == events[j] && Passed(front, debounce, j) == Passed(events, debounce, j)
      {
        PassedInFront(events, debounce, n, j);
      }
    }
  }

  /** Two events of one key that are let through are at least the debounce time apart. */
  lemma {:induction false} PassedEventsAreApart(events: seq<Event>, debounce: int, i: nat, j: nat)
    requires InOrder(events) && i < j < |events| && events[i].key == events[j].key
    requires Passed(events, debounce, i) && Passed(events, debounce, j)
    ensures events[j].at - events[i].at >= debounce
  {
    var front, key := events[..j], events[j].key;
    PassedInFront(events, debounce, j, i);
    PassedIsInTable(front, debounce, i);
    var k := TableHoldsTheLastPassed(front, debounce, key);
    assert front[i] == events[i] && front[k] == events[k];
    assert i <= k && events[i].at <= events[k].at;
  }

  lemma {:induction false} PassedIsInTable(events: seq<Event>, debounce: int, i: nat)
    requires i < |events| && Passed(events, debounce, i)
    ensures events[i].key in FullTimes(events, debounce)
    decreases |events|
  {
    var n := |events| - 1;
    if i < n {
      PassedInFront(events, debounce, n, i);
      PassedIsInTable(events[..n], debounce, i);
    }
  }

  /** Each event that is suppressed is closer than that to an earlier one of its key that was let through. */
  lemma {:induction false} SuppressedIsClose(events: seq<Event>, debounce: int, j: nat)
    requires j < |events| && !Passed(events, debounce, j)
    ensures exists i :: 0 <= i < j && events[i].key == events[j].key && Passed(events, debounce, i)
                        && events[j].at - events[i].at < debounce
  {
    var front := events[..j];
    var k := TableHoldsTheLastPassed(front, debounce, events[j].key);
    PassedInFront(events, debounce, j, k);
  }

  class EventDeduplicator {
    const debounce: int
    var recent: Times
    ghost var events: seq<Event>

    ghost predicate Valid()
      reads this
    {
      recent == RecentTimes(events, debounce) && InOrder(events)
    }

    constructor (seconds: int)
      ensures Valid() && debounce == seconds && events == []
    {
      debounce, recent, events := seconds, map[], [];
    }

    method IsDuplicate(kind: string, key: string, now: int) returns (duplicate: bool)
      requires Valid() && InOrder(events + [Event((kind, key), now)])
      modifies this
      ensures Valid() && events == old(events) + [Event((kind, key), now)]
      ensures duplicate <==> !Passed(events, debounce, |old(events)|)
    {
      var e := Event((kind, key), now);
      PurgingChangesNoDecision(events, debounce, e);
      assert (events + [e])[..|events|] == events;
      recent := Purged(recent, now - debounce * 2);
      events := events + [e];
      if e.key in recent && now - recent[e.key] < debounce {
        return true;
      }
      recent := recent[e.key := now];
      duplicate := false;
    }
  }

  // ---------------------------------------------------------------- violations

  datatype Violation = Violation(process: string, at: int)

  function Concerns(normal: string -> string, process: string, cutoff: int): Violation -> bool {
    (v: Violation) => normal(v.process) == normal(process) && v.at >= cutoff
  }

  /** The violations of a process since `cutoff`, among all of them. */
  function Matching(normal: string -> string, all: seq<Violation>, process: string, cutoff: int): seq<Violation> {
    Filter(Concerns(normal, process, cutoff), all)
  }

  /** The bounded history counts like the full one exactly when none of the evicted violations counts. */
  lemma {:induction false} BoundedHistoryCountsExactly(normal: string -> string, all: seq<Violation>, size: nat, process: string, cutoff: int)
    requires |all| > size
    ensures |Matching(normal, LastOf(all, size), process, cutoff)| <= |Matching(normal, all, process, cutoff)|
    ensures Matching(normal, LastOf(all, size), process, cutoff) == Matching(normal, all, process, cutoff)
            <==> forall v :: v in all[..|all| - size] ==> !(normal(v.process) == normal(process) && v.at >= cutoff)
  {
    var p, evicted, kept := Concerns(normal, process, cutoff), all[..|all| - size], LastOf(all, size);
    assert all == evicted + kept;
    FilterAppend(p, evicted, kept);
    FilterMembers(p, evicted);
    if forall v :: v in evicted ==> !p(v) {
      FilterNone(p, evicted);
      assert [] + Filter(p, kept) == Filter(p, kept);
    } else {
      var v :| v in evicted && p(v);
      assert v in Filter(p, evicted);
      assert |Filter(p, evicted)| > 0;
      assert |Matching(normal, all, process, cutoff)| > |Filter(p, kept)|;
    }
  }

  class ViolationTracker {
    const threshold: int
    const window: int
    const size: nat
    var violations: seq<Violation>
    ghost var all: seq<Violation>

    ghost predicate Valid()
      reads this
    {
      violations == LastOf(all, size) && size > 0 && threshold >= 1 && window >= 1
    }

    constructor (threshold: int, window: int, size: nat)
      requires size > 0
      ensures Valid() && all == [] && this.size == size
      ensures this.threshold == Max(1, threshold) && this.window == Max(1, window)
    {
      this.threshold, this.window, this.size := Max(1, threshold), Max(1, window), size;
      violations, all := [], [];
    }

    method RecordViolation(normal: string -> string, process: string, at: int)
      returns (count: nat, matching: seq<Violation>, escalated: bool)
      requires Valid()
      modifies this
      ensures Valid() && all == old(all) + [Violation(process, at)]
      ensures matching == Matching(normal, LastOf(all, size), process, at - window)
      ensures count == |matching| >= 1 && (escalated <==> count >= threshold)
    {
      var v := Violation(process, at);
      LastOfSnoc(all, v, size);
      all := all + [v];
      violations := LastOf(violations + [v], size);
      matching := Filter(Concerns(normal, process, at - window), violations);
      FilterMembers(Concerns(normal, process, at - window), violations);
      assert violations[|violations| - 1] == v && v in violations;
      assert v in matching;
      count := |matching|;
      escalated := count >= threshold;
    }
  }
}
