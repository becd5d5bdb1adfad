/** Scope filtering before aggregation finalises exactly the in-scope part of the unfiltered records. */
module FlowScope {
  import opened Prelude
  import opened FlowModel
  import Scope = ScopeFilterModel

  predicate KeepsObs(syntax: Scope.IpSyntax, networks: seq<Scope.Network>, o: Obs) {
    Scope.Keeps(syntax, networks, o.srcIp, o.dstIp)
  }

  predicate KeepsFlow(syntax: Scope.IpSyntax, networks: seq<Scope.Network>, f: Flow) {
    Scope.Keeps(syntax, networks, f.id.srcIp, f.id.dstIp)
  }

  predicate KeepsKey(syntax: Scope.IpSyntax, networks: seq<Scope.Network>, k: Key) {
    Scope.Keeps(syntax, networks, k.low.ip, k.high.ip)
  }

  /** The schedule a filtered aggregator sees: the packets kept, and every sweep and flush. */
  function KeptEvents(syntax: Scope.IpSyntax, networks: seq<Scope.Network>, events: seq<Event>): seq<Event> {
    Filter((e: Event) => e.Packet? ==> KeepsObs(syntax, networks, e.obs), events)
  }

  function KeptTable(syntax: Scope.IpSyntax, networks: seq<Scope.Network>, table: Table<Flow>): Table<Flow> {
    Filter((x: Entry<Flow>) => KeepsFlow(syntax, networks, x.flow), table)
  }

  function KeptRecords(syntax: Scope.IpSyntax, networks: seq<Scope.Network>, records: seq<Record>): seq<Record> {
    Filter((r: Record) => KeepsFlow(syntax, networks, r.flow), records)
  }

  /** Whether a flow lies in scope is told by its key. */
  ghost predicate KeyTellsScope(syntax: Scope.IpSyntax, networks: seq<Scope.Network>, table: Table<Flow>) {
    forall x :: x in table ==> (KeepsFlow(syntax, networks, x.flow) <==> KeepsKey(syntax, networks, x.key))
  }

  lemma {:induction false} FiltersCommute<T>(p: T -> bool, q: T -> bool, s: seq<T>)
    ensures Filter(p, Filter(q, s)) == Filter(q, Filter(p, s))
  {
    if s != [] {
      FiltersCommute(p, q, s[1..]);
      FilterAppend(p, if q(s[0]) then [s[0]] else [], Filter(q, s[1..]));
      FilterAppend(q, if p(s[0]) then [s[0]] else [], Filter(p, s[1..]));
    }
  }

  lemma {:induction false} FilterOfMap<T, U>(f: T -> U, p: U -> bool, q: T -> bool, s: seq<T>)
    requires forall x :: x in s ==> (p(f(x)) <==> q(x))
    ensures Filter(p, Map(f, s)) == Map(f, Filter(q, s))
  {
    if s != [] {
      FilterOfMap(f, p, q, s[1..]);
      assert s[0] in s;
      assert Map(f, s)[1..] == Map(f, s[1..]);
      MapAppend(f, if q(s[0]) then [s[0]] else [], Filter(q, s[1..]));
    }
  }

  /** Filtering by a property that all entries of a key share commutes with an upsert. */
  lemma {:induction false} FilterOfUpsert<F>(
      p: Entry<F> -> bool, table: Table<F>, k: Key, created: F, change: F -> F, keeps: bool)
    requires p(Entry(k, created)) == keeps
    requires forall x :: x in table && x.key == k ==> p(x) == keeps && p(Entry(k, change(x.flow))) == keeps
    ensures Filter(p, Upsert(table, k, created, change)) ==
            if keeps then Upsert(Filter(p, table), k, created, change) else Filter(p, table)
  {
    if table == [] {
      FilterCons(p, Entry(k, created), []);
      assert [Entry(k, created)] + [] == Upsert(table, k, created, change);
    } else {
      var x, rest := table[0], table[1..];
      assert x in table && (forall y :: y in rest ==> y in table);
      assert table == [x] + rest;
      FilterCons(p, x, rest);
      if x.key == k {
        FilterCons(p, Entry(k, change(x.flow)), rest);
        assert keeps ==> Filter(p, table)[1..] == Filter(p, rest);
      } else {
        FilterOfUpsert(p, rest, k, created, change, keeps);
        FilterCons(p, x, Upsert(rest, k, created, change));
        assert p(x) ==> Filter(p, table)[1..] == Filter(p, rest);
      }
    }
  }

  lemma {:induction false} UpsertMembers<F>(table: Table<F>, k: Key, created: F, change: F -> F, x: Entry<F>)
    requires x in Upsert(table, k, created, change)
    ensures x in table || x == Entry(k, created) || (exists y :: y in table && y.key == k && x == Entry(k, change(y.flow)))
  {
    if table != [] && table[0].key != k && x != table[0] {
      UpsertMembers(table[1..], k, created, change, x);
      assert forall y :: y in table[1..] ==> y in table;
    } else if table != [] && table[0].key == k {
      assert table[0] in table;
    }
  }

  lemma {:induction false} PacketInScope(syntax: Scope.IpSyntax, networks: seq<Scope.Network>, table: Table<Flow>, o: Obs, now: int)
    requires KeyTellsScope(syntax, networks, table)
    ensures KeyTellsScope(syntax, networks, Recorded(table, o, now))
    ensures KeptTable(syntax, networks, Recorded(table, o, now)) ==
            if KeepsObs(syntax, networks, o) then Recorded(KeptTable(syntax, networks, table), o, now)
            else KeptTable(syntax, networks, table)
  {
    if FlowKey(o).Some? {
      var k := FlowKey(o).value;
      var created, change := Updated(NewFlow(o, now), o, now), (f: Flow) => Updated(f, o, now);
      forall x | x in Recorded(table, o, now)
        ensures KeepsFlow(syntax, networks, x.flow) <==> KeepsKey(syntax, networks, x.key)
      {
        UpsertMembers(table, k, created, change, x);
      }
      FilterOfUpsert((x: Entry<Flow>) => KeepsFlow(syntax, networks, x.flow), table, k, created, change,
                     KeepsKey(syntax, networks, k));
    }
  }

  /** One event, filtered or not. */
  lemma {:induction false} EventInScope(syntax: Scope.IpSyntax, networks: seq<Scope.Network>, timeout: int, table: Table<Flow>, e: Event)
    requires KeyTellsScope(syntax, networks, table)
    ensures KeyTellsScope(syntax, networks, Aggregated(timeout, table, e).0)
    ensures var kept := KeptTable(syntax, networks, table);
            var (t, r) := Aggregated(timeout, table, e);
            (KeptTable(syntax, networks, t), KeptRecords(syntax, networks, r)) ==
            if e.Packet? && !KeepsObs(syntax, networks, e.obs) then (kept, []) else Aggregated(timeout, kept, e)
  {
    var inScope := (x: Entry<Flow>) => KeepsFlow(syntax, networks, x.flow);
    var recordInScope := (r: Record) => KeepsFlow(syntax, networks, r.flow);
    match e
    case Packet(o, now) => PacketInScope(syntax, networks, table, o, now);
    case Sweep(now, wall) =>
      var idle := (x: Entry<Flow>) => Idle(x.flow, now, timeout);
      var busy := (x: Entry<Flow>) => !Idle(x.flow, now, timeout);
      var finish := (x: Entry<Flow>) => ToRecord(x.flow, wall);
      FilterMembers(busy, table);
      FiltersCommute(inScope, busy, table);
      FiltersCommute(inScope, idle, table);
      FilterOfMap(finish, recordInScope, inScope, Filter(idle, table));
    case Flush(now, wall) =>
      FilterOfMap((x: Entry<Flow>) => ToRecord(x.flow, wall), recordInScope, inScope, table);
  }

  lemma {:induction false} KeptEventsSnoc(syntax: Scope.IpSyntax, networks: seq<Scope.Network>, before: seq<Event>, e: Event)
    ensures KeptEvents(syntax, networks, before + [e]) ==
            if e.Packet? && !KeepsObs(syntax, networks, e.obs) then KeptEvents(syntax, networks, before)
            else KeptEvents(syntax, networks, before) + [e]
  {
    FilterSnoc((e: Event) => e.Packet? ==> KeepsObs(syntax, networks, e.obs), before, e);
  }

  lemma {:induction false} KeptRecordsAppend(syntax: Scope.IpSyntax, networks: seq<Scope.Network>, a: seq<Record>, b: seq<Record>)
    ensures KeptRecords(syntax, networks, a + b) == KeptRecords(syntax, networks, a) + KeptRecords(syntax, networks, b)
  {
    FilterAppend((r: Record) => KeepsFlow(syntax, networks, r.flow), a, b);
  }

  /** The claim of `FilteringCommutesWithAggregation` about one schedule. */
  ghost predicate Commutes(syntax: Scope.IpSyntax, networks: seq<Scope.Network>, timeout: int, events: seq<Event>) {
    var (table, records) := Aggregate(timeout, events);
    && KeyTellsScope(syntax, networks, table)
    && Aggregate(timeout, KeptEvents(syntax, networks, events)) ==
       (KeptTable(syntax, networks, table), KeptRecords(syntax, networks, records))
  }

  lemma {:induction false} OneMoreEvent(syntax: Scope.IpSyntax, networks: seq<Scope.Network>, timeout: int, before: seq<Event>, e: Event)
    requires Commutes(syntax, networks, timeout, before)
    ensures Commutes(syntax, networks, timeout, before + [e])
  {
    var (table, records) := Aggregate(timeout, before);
    var more := Aggregated(timeout, table, e).1;
    var kept := KeptEvents(syntax, networks, before);
    AggregateSnoc(timeout, before, e);
    EventInScope(syntax, networks, timeout, table, e);
    KeptEventsSnoc(syntax, networks, before, e);
    KeptRecordsAppend(syntax, networks, records, more);
    if e.Packet? && !KeepsObs(syntax, networks, e.obs) {
      assert records + more == records;
    } else {
      AggregateSnoc(timeout, kept, e);
    }
  }

  /**
   For any schedule of packets, sweeps and flushes: aggregating only the kept packets leaves exactly the
   in-scope flows active and finalises exactly the in-scope subsequence of the unfiltered records.
   */
  lemma {:induction false} FilteringCommutesWithAggregation(
      syntax: Scope.IpSyntax, networks: seq<Scope.Network>, timeout: int, events: seq<Event>)
    ensures KeyTellsScope(syntax, networks, Aggregate(timeout, events).0)
    ensures Aggregate(timeout, KeptEvents(syntax, networks, events)) ==
            (KeptTable(syntax, networks, Aggregate(timeout, events).0), KeptRecords(syntax, networks, Aggregate(timeout, events).1))
    decreases |events|
  {
    if events != [] {
      var before, e := events[..|events| - 1], events[|events| - 1];
      assert events == before + [e];
      FilteringCommutesWithAggregation(syntax, networks, timeout, before);
      OneMoreEvent(syntax, networks, timeout, before, e);
    }
  }
}
