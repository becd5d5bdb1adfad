/** What aggregation does to the packets of one key: it cuts their sequence into sessions and summarises each. */
module FlowSessions {
  import opened Prelude
  import opened FlowModel
  import FlowScope

  /** A recorded packet with its place in the schedule. */
  datatype Arrival = Arrival(at: nat, obs: Obs, now: int)

  type Session = seq<Arrival>

  datatype Finished = Finished(session: Session, wall: string)

  predicate IsPacketOf(e: Event, k: Key) { e.Packet? && FlowKey(e.obs) == Some(k) }

  /** All recorded packets of a key, in order. */
  function Arrivals(events: seq<Event>, k: Key): Session
    decreases |events|
  {
    if events == [] then []
    else
      var n := |events| - 1;
      var before := Arrivals(events[..n], k);
      if IsPacketOf(events[n], k) then before + [Arrival(n, events[n].obs, events[n].now)] else before
  }

  /** Whether the event ends a session. */
  predicate Ends(timeout: int, s: Session, e: Event) {
    s != [] && (e.Flush? || (e.Sweep? && e.now - s[|s| - 1].now >= timeout))
  }

  /** The finished sessions of a key and the one still active ([] if there is none). */
  function Sessions(timeout: int, events: seq<Event>, k: Key): (seq<Finished>, Session)
    decreases |events|
  {
    if events == [] then ([], [])
    else
      var n := |events| - 1;
      var (finished, active) := Sessions(timeout, events[..n], k);
      if IsPacketOf(events[n], k) then (finished, active + [Arrival(n, events[n].obs, events[n].now)])
      else if Ends(timeout, active, events[n]) then (finished + [Finished(active, events[n].wall)], [])
      else (finished, active)
  }

  /** Stands for the summary of no packets, which the aggregator never makes. */
  const NO_FLOW := NewFlow(Obs(None, None, None, None, None, None, None, None, "", 0, ""), 0)

  /** The accumulator after the packets of a session, one `update` each. */
  function Summary(s: Session): Flow
    decreases |s|
  {
    if s == [] then NO_FLOW
    else
      var last := s[|s| - 1];
      Updated(if |s| == 1 then NewFlow(last.obs, last.now) else Summary(s[..|s| - 1]), last.obs, last.now)
  }

  // ---------------------------------------------------------------- the aggregator computes the sessions

  function FlowsKey(f: Flow): Option<Key> {
    KeyOf(f.id.protocol, Endpoint(f.id.srcIp, f.id.srcPort), Endpoint(f.id.dstIp, f.id.dstPort))
  }

  ghost predicate KeysMatch(table: Table<Flow>) {
    forall x :: x in table ==> FlowsKey(x.flow) == Some(x.key)
  }

  function OfKey(table: Table<Flow>, k: Key): Table<Flow> {
    Filter((x: Entry<Flow>) => x.key == k, table)
  }

  function RecordsOfKey(records: seq<Record>, k: Key): seq<Record> {
    Filter((r: Record) => FlowsKey(r.flow) == Some(k), records)
  }

  function ActiveEntry(active: Session, k: Key): Table<Flow> {
    if active == [] then [] else [Entry(k, Summary(active))]
  }

  function FinalRecord(f: Finished): Record { ToRecord(Summary(f.session), f.wall) }

  lemma {:induction false} RecordedOfKey(table: Table<Flow>, active: Session, o: Obs, now: int, at: nat, k: Key)
    requires KeysMatch(table) && OfKey(table, k) == ActiveEntry(active, k)
    ensures KeysMatch(Recorded(table, o, now))
    ensures OfKey(Recorded(table, o, now), k) ==
            ActiveEntry(if FlowKey(o) == Some(k) then active + [Arrival(at, o, now)] else active, k)
  {
    if FlowKey(o).Some? {
      var j := FlowKey(o).value;
      var created, change := Updated(NewFlow(o, now), o, now), (f: Flow) => Updated(f, o, now);
      forall x | x in Recorded(table, o, now)
        ensures FlowsKey(x.flow) == Some(x.key)
      {
        FlowScope.UpsertMembers(table, j, created, change, x);
      }
      FlowScope.FilterOfUpsert((x: Entry<Flow>) => x.key == k, table, j, created, change, j == k);
      if j == k {
        var longer := active + [Arrival(at, o, now)];
        assert longer[..|active|] == active;
      }
    }
  }

  lemma {:induction false} SweepOfKey(timeout: int, table: Table<Flow>, active: Session, e: Event, k: Key)
    requires KeysMatch(table) && OfKey(table, k) == ActiveEntry(active, k) && !e.Packet?
    ensures var (table', more) := Aggregated(timeout, table, e);
            && KeysMatch(table')
            && OfKey(table', k) == ActiveEntry(if Ends(timeout, active, e) then [] else active, k)
            && RecordsOfKey(more, k) == if Ends(timeout, active, e) then [FinalRecord(Finished(active, e.wall))] else []
  {
    var mine := (x: Entry<Flow>) => x.key == k;
    var recordIsMine := (r: Record) => FlowsKey(r.flow) == Some(k);
    var finish := (x: Entry<Flow>) => ToRecord(x.flow, e.wall);
    if e.Sweep? {
      var idle := (x: Entry<Flow>) => Idle(x.flow, e.now, timeout);
      var busy := (x: Entry<Flow>) => !Idle(x.flow, e.now, timeout);
      FilterMembers(busy, table);
      FilterMembers(idle, table);
      FlowScope.FiltersCommute(mine, busy, table);
      FlowScope.FiltersCommute(mine, idle, table);
      FlowScope.FilterOfMap(finish, recordIsMine, mine, Filter(idle, table));
    } else {
      FlowScope.FilterOfMap(finish, recordIsMine, mine, table);
    }
  }

  ghost predicate Refines(timeout: int, events: seq<Event>, k: Key) {
    var (table, records) := Aggregate(timeout, events);
    var (finished, active) := Sessions(timeout, events, k);
    && KeysMatch(table)
    && OfKey(table, k) == ActiveEntry(active, k)
    && RecordsOfKey(records, k) == Map(FinalRecord, finished)
  }

  lemma {:induction false} RefinesOneMore(timeout: int, before: seq<Event>, e: Event, k: Key)
    requires Refines(timeout, before, k)
    ensures Refines(timeout, before + [e], k)
  {
    var (table, records) := Aggregate(timeout, before);
    var (finished, active) := Sessions(timeout, before, k);
    var events := before + [e];
    assert events[..|before|] == before;
    AggregateSnoc(timeout, before, e);
    FilterAppend((r: Record) => FlowsKey(r.flow) == Some(k), records, Aggregated(timeout, table, e).1);
    if e.Packet? {
      RecordedOfKey(table, active, e.obs, e.now, |before|, k);
      assert records + [] == records;
    } else {
      SweepOfKey(timeout, table, active, e, k);
      MapAppend(FinalRecord, finished, [Finished(active, e.wall)]);
    }
  }

  /** For each key: the active flow summarises its active session, its records summarise its finished sessions in order. */
  lemma {:induction false} AggregatorSummarisesSessions(timeout: int, events: seq<Event>, k: Key)
    ensures OfKey(Aggregate(timeout, events).0, k) == ActiveEntry(Sessions(timeout, events, k).1, k)
    ensures RecordsOfKey(Aggregate(timeout, events).1, k) == Map(FinalRecord, Sessions(timeout, events, k).0)
    ensures Refines(timeout, events, k)
    decreases |events|
  {
    if events != [] {
      var before, e := events[..|events| - 1], events[|events| - 1];
      assert events == before + [e];
      AggregatorSummarisesSessions(timeout, before, k);
      RefinesOneMore(timeout, before, e, k);
    }
  }

  // ---------------------------------------------------------------- what a summary says

  ghost predicate ClockRuns(s: Session) {
    forall i, j :: 0 <= i < j < |s| ==> s[i].now <= s[j].now
  }

  function Total(m: Obs -> nat, s: Session): nat {
    if s == [] then 0 else Total(m, s[..|s| - 1]) + m(s[|s| - 1].obs)
  }

  function LengthOf(o: Obs): nat { o.length }

  function One(o: Obs): nat { 1 }

  function SynOf(o: Obs): nat { Tick('S' in o.tcpFlags) }

  function FinOf(o: Obs): nat { Tick('F' in o.tcpFlags) }

  function RstOf(o: Obs): nat { Tick('R' in o.tcpFlags) }

  lemma {:induction false} SummaryTotals(s: Session)
    requires s != []
    ensures Summary(s).sizes.packets == |s| == Total(One, s)
    ensures Summary(s).sizes.bytes == Total(LengthOf, s)
    ensures Summary(s).flags.syn == Total(SynOf, s) && Summary(s).flags.fin == Total(FinOf, s) && Summary(s).flags.rst == Total(RstOf, s)
    ensures Summary(s).sides.inPackets + Summary(s).sides.outPackets <= |s|
    ensures Summary(s).sides.inBytes + Summary(s).sides.outBytes <= Summary(s).sizes.bytes
    ensures Summary(s).gaps.lastAt == s[|s| - 1].now
    decreases |s|
  {
    if |s| > 1 {
      SummaryTotals(s[..|s| - 1]);
    } else {
      assert s[..0] == [];
    }
  }

  function InOf(o: Obs): nat { Tick(o.direction == "inbound") }

  function OutOf(o: Obs): nat { Tick(o.direction == "outbound") }

  function InLengthOf(o: Obs): nat { if o.direction == "inbound" then o.length else 0 }

  function OutLengthOf(o: Obs): nat { if o.direction == "outbound" then o.length else 0 }

  /** Packets and bytes are counted on the side the observation names. */
  lemma {:induction false} SummaryDirections(s: Session)
    requires s != []
    ensures Summary(s).sides == Sides(Total(InOf, s), Total(OutOf, s), Total(InLengthOf, s), Total(OutLengthOf, s))
    decreases |s|
  {
    if |s| > 1 {
      SummaryDirections(s[..|s| - 1]);
    } else {
      assert s[..0] == [];
    }
  }

  /** The first timestamp that a packet of the session carried, "" if none did. */
  ghost predicate IsFirstTime(s: Session, text: string) {
    if text == "" then forall i :: 0 <= i < |s| ==> Timestamp(s[i].obs) == ""
    else exists i :: 0 <= i < |s| && Timestamp(s[i].obs) == text && forall j :: 0 <= j < i ==> Timestamp(s[j].obs) == ""
  }

  ghost predicate IsLastTime(s: Session, text: string) {
    if text == "" then forall i :: 0 <= i < |s| ==> Timestamp(s[i].obs) == ""
    else exists i :: 0 <= i < |s| && Timestamp(s[i].obs) == text && forall j :: i < j < |s| ==> Timestamp(s[j].obs) == ""
  }

  lemma {:induction false} FirstTimeSnoc(s: Session, text: string, a: Arrival)
    requires IsFirstTime(s, text)
    ensures IsFirstTime(s + [a], if text == "" then Timestamp(a.obs) else text)
  {
    var all := s + [a];
    if text != "" {
      var i :| 0 <= i < |s| && Timestamp(s[i].obs) == text && forall j :: 0 <= j < i ==> Timestamp(s[j].obs) == "";
      assert Timestamp(all[i].obs) == text;
    } else {
      assert Timestamp(all[|s|].obs) == Timestamp(a.obs);
    }
  }

  lemma {:induction false} LastTimeSnoc(s: Session, text: string, a: Arrival)
    requires IsLastTime(s, text)
    ensures IsLastTime(s + [a], if Timestamp(a.obs) == "" then text else Timestamp(a.obs))
  {
    var all := s + [a];
    assert Timestamp(all[|s|].obs) == Timestamp(a.obs);
    if text != "" && Timestamp(a.obs) == "" {
      var i :| 0 <= i < |s| && Timestamp(s[i].obs) == text && forall j :: i < j < |s| ==> Timestamp(s[j].obs) == "";
      assert Timestamp(all[i].obs) == text;
    }
  }

  /** Who talked is told by the first packet; the times are the first and the last timestamp any packet carried. */
  lemma {:induction false} SummaryIdentityAndTimes(s: Session)
    requires s != []
    ensures Summary(s).id == Identity(s[0].obs.srcMac, s[0].obs.dstMac, s[0].obs.srcIp, s[0].obs.dstIp, s[0].obs.srcPort, s[0].obs.dstPort,
                                      if s[0].obs.protocol.None? || s[0].obs.protocol.value == "" then "UNKNOWN" else s[0].obs.protocol.value,
                                      s[0].obs.direction)
    ensures IsFirstTime(s, Summary(s).seen.first) && IsLastTime(s, Summary(s).seen.last)
    decreases |s|
  {
    var n := |s| - 1;
    assert s == s[..n] + [s[n]];
    if n > 0 {
      SummaryIdentityAndTimes(s[..n]);
      FirstTimeSnoc(s[..n], Summary(s[..n]).seen.first, s[n]);
      LastTimeSnoc(s[..n], Summary(s[..n]).seen.last, s[n]);
    }
  }

  /** The application of the first packet that tells one. */
  ghost predicate IsFirstApplication(s: Session, application: Option<string>) {
    if application.None? then forall i :: 0 <= i < |s| ==> ApplicationTells(s[i].obs, None)
    else exists i :: 0 <= i < |s| && ApplicationTells(s[i].obs, application) && forall j :: 0 <= j < i ==> ApplicationTells(s[j].obs, None)
  }

  lemma {:induction false} FirstApplicationSnoc(s: Session, application: Option<string>, a: Arrival, told: Option<string>)
    requires IsFirstApplication(s, application) && ApplicationTells(a.obs, told)
    ensures IsFirstApplication(s + [a], if application.None? then told else application)
  {
    var all := s + [a];
    assert all[|s|] == a;
    if application.Some? {
      var i :| 0 <= i < |s| && ApplicationTells(s[i].obs, application) && forall j :: 0 <= j < i ==> ApplicationTells(s[j].obs, None);
      assert all[i] == s[i];
    }
  }

  /** The application is that of the first packet that tells one. */
  lemma {:induction false} SummaryApplication(s: Session)
    requires s != []
    ensures IsFirstApplication(s, Summary(s).application)
    decreases |s|
  {
    var n := |s| - 1;
    assert s == s[..n] + [s[n]];
    ApplicationIsTold(s[n].obs);
    if n > 0 {
      SummaryApplication(s[..n]);
      NeverEmptyApplication(s[..n]);
      FirstApplicationSnoc(s[..n], Summary(s[..n]).application, s[n], ApplicationProtocol(s[n].obs));
      assert Summary(s).application == ApplicationAfter(Summary(s[..n]).application, s[n].obs);
    } else {
      NeverEmptyApplication(s);
      assert Summary(s).application == ApplicationProtocol(s[0].obs);
      FirstApplicationSnoc([], None, s[0], ApplicationProtocol(s[0].obs));
      assert s == [] + [s[0]];
    }
  }

  lemma {:induction false} NeverEmptyApplication(s: Session)
    requires s != []
    ensures Summary(s).application != Some("")
    decreases |s|
  {
    ApplicationIsTold(s[|s| - 1].obs);
    if |s| > 1 {
      NeverEmptyApplication(s[..|s| - 1]);
    }
  }

  /** The recorded extremes are attained, and bound the byte total from both sides. */
  lemma {:induction false} SummaryExtremes(s: Session)
    requires s != []
    ensures Summary(s).sizes.min.Some? && Summary(s).sizes.max.Some?
    ensures forall i :: 0 <= i < |s| ==> Summary(s).sizes.min.value <= s[i].obs.length <= Summary(s).sizes.max.value
    ensures exists i :: 0 <= i < |s| && s[i].obs.length == Summary(s).sizes.min.value
    ensures exists i :: 0 <= i < |s| && s[i].obs.length == Summary(s).sizes.max.value
    decreases |s|
  {
    if |s| > 1 {
      var n := |s| - 1;
      SummaryExtremes(s[..n]);
      var lo :| 0 <= lo < n && s[..n][lo].obs.length == Summary(s[..n]).sizes.min.value;
      var hi :| 0 <= hi < n && s[..n][hi].obs.length == Summary(s[..n]).sizes.max.value;
      assert s[lo].obs.length == Summary(s[..n]).sizes.min.value && s[hi].obs.length == Summary(s[..n]).sizes.max.value;
      assert s[n].obs.length == s[|s| - 1].obs.length;
      forall i | 0 <= i < |s|
        ensures Summary(s).sizes.min.value <= s[i].obs.length <= Summary(s).sizes.max.value
      {
        assert i < n ==> s[..n][i] == s[i];
      }
    } else {
      assert s[0].obs.length == Summary(s).sizes.min.value;
    }
  }

  lemma {:induction false} TotalBounds(s: Session, low: nat, high: nat)
    requires forall i :: 0 <= i < |s| ==> low <= s[i].obs.length <= high
    ensures low * |s| <= Total(LengthOf, s) <= high * |s|
    decreases |s|
  {
    if s != [] {
      var n := |s| - 1;
      TotalBounds(s[..n], low, high);
      assert low * |s| == low * n + low && high * |s| == high * n + high;
    }
  }

  lemma {:induction false} BytesBetweenExtremes(s: Session)
    requires s != []
    ensures Summary(s).sizes.min.Some? && Summary(s).sizes.max.Some?
    ensures Summary(s).sizes.min.value * Summary(s).sizes.packets <= Summary(s).sizes.bytes <= Summary(s).sizes.max.value * Summary(s).sizes.packets
  {
    SummaryTotals(s);
    SummaryExtremes(s);
    TotalBounds(s, Summary(s).sizes.min.value, Summary(s).sizes.max.value);
  }

  lemma {:induction false} GapsTelescope(s: Session)
    requires s != [] && ClockRuns(s)
    ensures Summary(s).gaps.sum == s[|s| - 1].now - s[0].now && Summary(s).gaps.count == |s| - 1
    decreases |s|
  {
    if |s| > 1 {
      var n := |s| - 1;
      GapsTelescope(s[..n]);
      SummaryTotals(s[..n]);
      assert s[n - 1].now <= s[n].now;
    }
  }

  /** The monotonic clock does not run back. */
  ghost predicate Monotone(events: seq<Event>) {
    forall i, j :: 0 <= i < j < |events| ==> events[i].now <= events[j].now
  }

  predicate FromEvents(s: Session, events: seq<Event>) {
    forall i :: 0 <= i < |s| ==> s[i].at < |events| && events[s[i].at].now == s[i].now
  }

  lemma {:induction false} SessionsRunInOrder(timeout: int, events: seq<Event>, k: Key)
    requires Monotone(events)
    ensures var (finished, active) := Sessions(timeout, events, k);
            && ClockRuns(active) && FromEvents(active, events)
            && (forall i :: 0 <= i < |finished| ==> ClockRuns(finished[i].session))
    decreases |events|
  {
    if events != [] {
      var n := |events| - 1;
      assert Monotone(events[..n]);
      SessionsRunInOrder(timeout, events[..n], k);
      var (finished, active) := Sessions(timeout, events[..n], k);
      assert FromEvents(active, events) by {
        forall i | 0 <= i < |active|
          ensures active[i].at < |events| && events[active[i].at].now == active[i].now
        {
          assert events[..n][active[i].at] == events[active[i].at];
        }
      }
    }
  }

  // ---------------------------------------------------------------- what a record says

  predicate Carries(a: Arrival, text: string) { a.obs.timestamp == Some(text) && text != "" }

  predicate CarriesNone(a: Arrival) { a.obs.timestamp == None || a.obs.timestamp == Some("") }

  /** The first timestamp that a packet of the session carried, or else the text of the time at which the session ended. */
  ghost predicate FirstSeenTells(s: Session, wall: string, text: string) {
    if forall i :: 0 <= i < |s| ==> CarriesNone(s[i]) then text == wall
    else exists i :: 0 <= i < |s| && Carries(s[i], text) && forall j :: 0 <= j < i ==> CarriesNone(s[j])
  }

  ghost predicate LastSeenTells(s: Session, first: string, text: string) {
    if forall i :: 0 <= i < |s| ==> CarriesNone(s[i]) then text == first
    else exists i :: 0 <= i < |s| && Carries(s[i], text) && forall j :: i < j < |s| ==> CarriesNone(s[j])
  }

  ghost predicate SizesTell(s: Session, min: nat, max: nat) {
    && (forall i :: 0 <= i < |s| ==> min <= s[i].obs.length <= max)
    && (exists i :: 0 <= i < |s| && s[i].obs.length == min) && (exists i :: 0 <= i < |s| && s[i].obs.length == max)
  }

  ghost predicate RecordTells(r: Record, s: Session, wall: string) {
    && s != [] && r.flow == Summary(s)
    && FirstSeenTells(s, wall, r.firstSeen) && LastSeenTells(s, r.firstSeen, r.lastSeen) && SizesTell(s, r.minSize, r.maxSize)
  }

  lemma {:induction false} CarriedText(a: Arrival)
    ensures CarriesNone(a) <==> Timestamp(a.obs) == ""
    ensures forall text :: text != "" ==> (Carries(a, text) <==> Timestamp(a.obs) == text)
  {
  }

  lemma {:induction false} SeenTells(s: Session, wall: string)
    requires s != []
    ensures var r := FinalRecord(Finished(s, wall)); FirstSeenTells(s, wall, r.firstSeen) && LastSeenTells(s, r.firstSeen, r.lastSeen)
  {
    SummaryIdentityAndTimes(s);
    forall i | 0 <= i < |s|
      ensures CarriesNone(s[i]) <==> Timestamp(s[i].obs) == ""
      ensures forall text :: text != "" ==> (Carries(s[i], text) <==> Timestamp(s[i].obs) == text)
    {
      CarriedText(s[i]);
    }
    var first, last := Summary(s).seen.first, Summary(s).seen.last;
    if first != "" {
      var i :| 0 <= i < |s| && Timestamp(s[i].obs) == first && forall j :: 0 <= j < i ==> Timestamp(s[j].obs) == "";
      assert Carries(s[i], first);
    }
    if last != "" {
      var i :| 0 <= i < |s| && Timestamp(s[i].obs) == last && forall j :: i < j < |s| ==> Timestamp(s[j].obs) == "";
      assert Carries(s[i], last);
    }
  }

  lemma {:induction false} RecordTellsItsSession(s: Session, wall: string)
    requires s != []
    ensures RecordTells(FinalRecord(Finished(s, wall)), s, wall)
  {
    SeenTells(s, wall);
    SummaryExtremes(s);
  }

  /**
   * Over every schedule the records of a key tell, in order, of its finished sessions: the first timestamp carried or
   * else the time at which the session ended, the last one carried or else the first, the smallest and largest packet.
   */
  lemma {:induction false} RecordsTellTheirSessions(timeout: int, events: seq<Event>, k: Key)
    ensures var finished := Sessions(timeout, events, k).0;
            var records := RecordsOfKey(Aggregate(timeout, events).1, k);
            && |records| == |finished|
            && (forall i :: 0 <= i < |records| ==> RecordTells(records[i], finished[i].session, finished[i].wall))
  {
    AggregatorSummarisesSessions(timeout, events, k);
    SessionsHaveShape(timeout, events, k);
    var finished := Sessions(timeout, events, k).0;
    forall i | 0 <= i < |finished|
      ensures RecordTells(FinalRecord(finished[i]), finished[i].session, finished[i].wall)
    {
      RecordTellsItsSession(finished[i].session, finished[i].wall);
    }
  }

  // ---------------------------------------------------------------- gaps between packets

  /** Every gap between successive packets of the session is in the sum. */
  predicate GapsTell(g: Gaps, s: Session) {
    s != [] && g == Gaps(s[|s| - 1].now, s[|s| - 1].now - s[0].now, |s| - 1)
  }

  /**
   * Over every schedule under a monotonic clock: the inter-arrival sum of each record of a key,
   * and of its active flow, telescopes to last minus first arrival of its session, over one gap less than packets.
   */
  lemma {:induction false} RecordedGapsTelescope(timeout: int, events: seq<Event>, k: Key)
    requires Monotone(events)
    ensures var (finished, active) := Sessions(timeout, events, k);
            var records := RecordsOfKey(Aggregate(timeout, events).1, k);
            var flows := OfKey(Aggregate(timeout, events).0, k);
            && |records| == |finished|
            && (forall i :: 0 <= i < |records| ==> GapsTell(records[i].flow.gaps, finished[i].session))
            && |flows| == (if active == [] then 0 else 1)
            && (active != [] ==> GapsTell(flows[0].flow.gaps, active))
  {
    var (finished, active) := Sessions(timeout, events, k);
    AggregatorSummarisesSessions(timeout, events, k);
    SessionsRunInOrder(timeout, events, k);
    SessionsHaveShape(timeout, events, k);
    forall i | 0 <= i < |finished|
      ensures GapsTell(FinalRecord(finished[i]).flow.gaps, finished[i].session)
    {
      GapsTelescope(finished[i].session);
      SummaryTotals(finished[i].session);
    }
    if active != [] {
      GapsTelescope(active);
      SummaryTotals(active);
    }
  }

  // ---------------------------------------------------------------- conservation

  function Packets(finished: seq<Finished>): Session {
    if finished == [] then [] else Packets(finished[..|finished| - 1]) + finished[|finished| - 1].session
  }

  ghost predicate SessionsShape(timeout: int, events: seq<Event>, k: Key) {
    var (finished, active) := Sessions(timeout, events, k);
    && Packets(finished) + active == Arrivals(events, k)
    && (forall i :: 0 <= i < |finished| ==> finished[i].session != [])
    && (forall i :: 0 <= i < |active| ==> active[i].at < |events|)
    && (forall i, j :: 0 <= i < |finished| && 0 <= j < |finished[i].session| ==> finished[i].session[j].at < |events|)
  }

  lemma {:induction false} SessionsHaveShape(timeout: int, events: seq<Event>, k: Key)
    ensures SessionsShape(timeout, events, k)
    decreases |events|
  {
    if events != [] {
      var n := |events| - 1;
      SessionsHaveShape(timeout, events[..n], k);
      var (finished, active) := Sessions(timeout, events[..n], k);
      if Ends(timeout, active, events[n]) && !IsPacketOf(events[n], k) {
        var more := finished + [Finished(active, events[n].wall)];
        assert more[..|finished|] == finished;
      }
    }
  }

  /** Per key, finished and active sessions partition the recorded packets into contiguous runs, none of the finished ones empty. */
  lemma {:induction false} SessionsPartitionArrivals(timeout: int, events: seq<Event>, k: Key)
    ensures Packets(Sessions(timeout, events, k).0) + Sessions(timeout, events, k).1 == Arrivals(events, k)
    ensures forall f :: f in Sessions(timeout, events, k).0 ==> f.session != []
  {
    SessionsHaveShape(timeout, events, k);
  }

  lemma {:induction false} TotalAppend(m: Obs -> nat, s: Session, t: Session)
    ensures Total(m, s + t) == Total(m, s) + Total(m, t)
    decreases |t|
  {
    if t == [] {
      assert s + t == s;
    } else {
      var n := |t| - 1;
      assert (s + t)[..|s + t| - 1] == s + t[..n];
      TotalAppend(m, s, t[..n]);
    }
  }

  function SumOf(g: Flow -> nat, records: seq<Record>): nat {
    if records == [] then 0 else SumOf(g, records[..|records| - 1]) + g(records[|records| - 1].flow)
  }

  lemma {:induction false} RecordsSum(m: Obs -> nat, g: Flow -> nat, finished: seq<Finished>)
    requires forall s: Session :: s != [] ==> g(Summary(s)) == Total(m, s)
    requires forall i :: 0 <= i < |finished| ==> finished[i].session != []
    ensures SumOf(g, Map(FinalRecord, finished)) == Total(m, Packets(finished))
    decreases |finished|
  {
    if finished != [] {
      var n := |finished| - 1;
      RecordsSum(m, g, finished[..n]);
      assert Map(FinalRecord, finished)[..n] == Map(FinalRecord, finished[..n]);
      TotalAppend(m, Packets(finished[..n]), finished[n].session);
    }
  }

  /** Whatever a summary totals is conserved: records of the key plus its active flow add up to all its packets. */
  lemma {:induction false} TotalsAreConserved(timeout: int, events: seq<Event>, k: Key, m: Obs -> nat, g: Flow -> nat)
    requires forall s: Session :: s != [] ==> g(Summary(s)) == Total(m, s)
    ensures var (table, records) := Aggregate(timeout, events);
            var active := OfKey(table, k);
            SumOf(g, RecordsOfKey(records, k)) + (if active == [] then 0 else g(active[0].flow)) == Total(m, Arrivals(events, k))
  {
    AggregatorSummarisesSessions(timeout, events, k);
    SessionsHaveShape(timeout, events, k);
    var (finished, active) := Sessions(timeout, events, k);
    RecordsSum(m, g, finished);
    TotalAppend(m, Packets(finished), active);
  }

  /** Packets, bytes and TCP flags of a key are neither lost nor counted twice. */
  lemma {:induction false} FlowCountersAreConserved(timeout: int, events: seq<Event>, k: Key)
    ensures var (table, records) := Aggregate(timeout, events);
            var active := OfKey(table, k);
            var mine := RecordsOfKey(records, k);
            var all := Arrivals(events, k);
            && SumOf((f: Flow) => f.sizes.packets, mine) + (if active == [] then 0 else active[0].flow.sizes.packets) == |all|
            && SumOf((f: Flow) => f.sizes.bytes, mine) + (if active == [] then 0 else active[0].flow.sizes.bytes) == Total(LengthOf, all)
            && SumOf((f: Flow) => f.flags.syn, mine) + (if active == [] then 0 else active[0].flow.flags.syn) == Total(SynOf, all)
            && SumOf((f: Flow) => f.flags.fin, mine) + (if active == [] then 0 else active[0].flow.flags.fin) == Total(FinOf, all)
            && SumOf((f: Flow) => f.flags.rst, mine) + (if active == [] then 0 else active[0].flow.flags.rst) == Total(RstOf, all)
  {
    forall s: Session | s != []
      ensures Summary(s).sizes.packets == Total(One, s) && Summary(s).sizes.bytes == Total(LengthOf, s)
      ensures Summary(s).flags.syn == Total(SynOf, s) && Summary(s).flags.fin == Total(FinOf, s) && Summary(s).flags.rst == Total(RstOf, s)
    {
      SummaryTotals(s);
    }
    TotalsAreConserved(timeout, events, k, One, (f: Flow) => f.sizes.packets);
    TotalsAreConserved(timeout, events, k, LengthOf, (f: Flow) => f.sizes.bytes);
    TotalsAreConserved(timeout, events, k, SynOf, (f: Flow) => f.flags.syn);
    TotalsAreConserved(timeout, events, k, FinOf, (f: Flow) => f.flags.fin);
    TotalsAreConserved(timeout, events, k, RstOf, (f: Flow) => f.flags.rst);
    TotalOnes(Arrivals(events, k));
  }

  lemma {:induction false} TotalOnes(s: Session)
    ensures Total(One, s) == |s|
    decreases |s|
  {
    if s != [] {
      TotalOnes(s[..|s| - 1]);
    }
  }

  // ---------------------------------------------------------------- where the sessions are cut

  predicate Holds(s: Session, at: nat) {
    exists i :: 0 <= i < |s| && s[i].at == at
  }

  /** The packets at the two places of the schedule ended up in one record (or in the active flow). */
  predicate Together(timeout: int, events: seq<Event>, k: Key, i: nat, j: nat) {
    var (finished, active) := Sessions(timeout, events, k);
    || (Holds(active, i) && Holds(active, j))
    || exists f :: 0 <= f < |finished| && Holds(finished[f].session, i) && Holds(finished[f].session, j)
  }

  /** Between the two places the aggregator was flushed, or swept when the first packet had been idle for the timeout. */
  ghost predicate Cut(timeout: int, events: seq<Event>, i: nat, j: nat)
    requires i < j <= |events|
  {
    exists m :: i < m < j && (events[m].Flush? || (events[m].Sweep? && events[m].now - events[i].now >= timeout))
  }

  /** No packet of the key between the two places. */
  ghost predicate Quiet(events: seq<Event>, k: Key, i: nat, j: nat)
    requires i < j <= |events|
  {
    forall m :: i < m < j ==> !IsPacketOf(events[m], k)
  }

  lemma {:induction false} HoldsSnoc(s: Session, a: Arrival, at: nat)
    ensures Holds(s + [a], at) <==> Holds(s, at) || a.at == at
  {
    var t := s + [a];
    assert t[|s|] == a;
    if Holds(s, at) {
      var i :| 0 <= i < |s| && s[i].at == at;
      assert t[i].at == at;
    }
  }

  /** Events that come later do not change whether two packets are together. */
  lemma {:induction false} TogetherStays(timeout: int, events: seq<Event>, k: Key, i: nat, j: nat, n: nat)
    requires i < n && j < n <= |events|
    ensures Together(timeout, events, k, i, j) <==> Together(timeout, events[..n], k, i, j)
    decreases |events|
  {
    if n == |events| {
      assert events[..n] == events;
    } else {
      var m := |events| - 1;
      TogetherStays(timeout, events[..m], k, i, j, n);
      assert events[..m][..n] == events[..n];
      TogetherOneMore(timeout, events, k, i, j);
    }
  }

  lemma {:induction false} TogetherOneMore(timeout: int, events: seq<Event>, k: Key, i: nat, j: nat)
    requires i < |events| - 1 && j < |events| - 1
    ensures Together(timeout, events, k, i, j) <==> Together(timeout, events[..|events| - 1], k, i, j)
  {
    var m := |events| - 1;
    var (finished, active) := Sessions(timeout, events[..m], k);
    if IsPacketOf(events[m], k) {
      var a := Arrival(m, events[m].obs, events[m].now);
      HoldsSnoc(active, a, i);
      HoldsSnoc(active, a, j);
    } else if Ends(timeout, active, events[m]) {
      var more := finished + [Finished(active, events[m].wall)];
      assert more[|finished|].session == active;
      assert forall f :: 0 <= f < |finished| ==> more[f] == finished[f];
    }
  }

  /** After the packet at `i`, and before the next one of its key, the session is active until the first cut. */
  lemma {:induction false} ActiveUntilCut(timeout: int, events: seq<Event>, k: Key, i: nat)
    requires i < |events| && IsPacketOf(events[i], k) && Quiet(events, k, i, |events|)
    ensures var active := Sessions(timeout, events, k).1;
            && (active == [] <==> Cut(timeout, events, i, |events|))
            && (active != [] ==> active[|active| - 1].at == i && active[|active| - 1].now == events[i].now)
    decreases |events|
  {
    var n := |events| - 1;
    if i < n {
      ActiveUntilCut(timeout, events[..n], k, i);
      if Cut(timeout, events[..n], i, n) {
        var m :| i < m < n && (events[..n][m].Flush? || (events[..n][m].Sweep? && events[..n][m].now - events[..n][i].now >= timeout));
        assert events[m] == events[..n][m];
      } else {
        assert forall m :: i < m < n ==> events[..n][m] == events[m];
      }
    }
  }

  lemma {:induction false} JoinsLast(timeout: int, events: seq<Event>, k: Key, i: nat, j: nat)
    requires i < j && |events| == j + 1 && IsPacketOf(events[j], k)
    requires var active := Sessions(timeout, events[..j], k).1; active != [] ==> active[|active| - 1].at == i
    ensures Together(timeout, events, k, i, j) <==> Sessions(timeout, events[..j], k).1 != []
  {
    SessionsHaveShape(timeout, events[..j], k);
    var (finished, active) := Sessions(timeout, events[..j], k);
    HoldsSnoc(active, Arrival(j, events[j].obs, events[j].now), i);
    HoldsSnoc(active, Arrival(j, events[j].obs, events[j].now), j);
  }

  /**
   Two successive packets of a key end up in different records exactly when, between them, the aggregator was
   flushed or swept at a moment when the first of them was at least the timeout old.
   */
  lemma {:induction false} SessionCutsExactly(timeout: int, events: seq<Event>, k: Key, i: nat, j: nat)
    requires i < j < |events| && IsPacketOf(events[i], k) && IsPacketOf(events[j], k) && Quiet(events, k, i, j)
    ensures Together(timeout, events, k, i, j) <==> !Cut(timeout, events, i, j)
  {
    TogetherStays(timeout, events, k, i, j, j + 1);
    var upTo := events[..j + 1];
    assert upTo[..j] == events[..j];
    CutInFront(timeout, events, i, j);
    ActiveUntilCut(timeout, events[..j], k, i);
    JoinsLast(timeout, upTo, k, i, j);
  }

  lemma {:induction false} CutInFront(timeout: int, events: seq<Event>, i: nat, j: nat)
    requires i < j < |events|
    ensures Cut(timeout, events[..j], i, j) <==> Cut(timeout, events, i, j)
  {
    assert forall m :: 0 <= m < j ==> events[..j][m] == events[m];
  }

  /** In particular, packets of a key closer than the timeout share a record unless `flush_all` ran between them. */
  lemma {:induction false} CloseSuccessorsStayTogether(timeout: int, events: seq<Event>, k: Key, i: nat, j: nat)
    requires Monotone(events)
    requires i < j < |events| && IsPacketOf(events[i], k) && IsPacketOf(events[j], k) && Quiet(events, k, i, j)
    requires events[j].now - events[i].now < timeout
    requires forall m :: i < m < j ==> !events[m].Flush?
    ensures Together(timeout, events, k, i, j)
  {
    SessionCutsExactly(timeout, events, k, i, j);
    assert forall m :: i < m < j ==> events[m].now <= events[j].now;
  }
}
