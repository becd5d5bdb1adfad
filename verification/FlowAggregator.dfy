/** The aggregator object and its mutable flow accumulators, proved against the table model. */
module FlowAggregatorObject {
  import opened Prelude
  import opened FlowModel

  class ActiveFlow {
    const id: Identity
    var seen: Seen
    var sizes: Sizes
    var flags: Flags
    var sides: Sides
    var gaps: Gaps
    var application: Option<string>

    function Value(): Flow
      reads this
    {
      Flow(id, seen, sizes, flags, sides, gaps, application)
    }

    constructor (o: Obs, now: int)
      ensures Value() == NewFlow(o, now)
    {
      id, seen, sizes := IdentityOf(o), Seen(Timestamp(o), Timestamp(o)), Sizes(0, 0, None, None);
      flags, sides, gaps := Flags(0, 0, 0), Sides(0, 0, 0, 0), Gaps(now, 0, 0);
      application := ApplicationProtocol(o);
    }

    method Update(o: Obs, now: int)
      modifies this
      ensures Value() == Updated(old(Value()), o, now)
    {
      gaps := GapsAfter(gaps, sizes.packets, now);
      sizes := SizesAfter(sizes, o);
      seen := SeenAfter(seen, o);
      sides := SidesAfter(sides, o);
      flags := FlagsAfter(flags, o);
      application := ApplicationAfter(application, o);
    }
  }

  ghost predicate DistinctKeys(table: Table<Flow>) {
    forall i, j :: 0 <= i < j < |table| ==> table[i].key != table[j].key
  }

  lemma {:induction false} DistinctKeysStay(p: Entry<Flow> -> bool, table: Table<Flow>)
    requires DistinctKeys(table)
    ensures DistinctKeys(Filter(p, table)) && forall x :: x in Filter(p, table) ==> x in table
  {
    FilterMembers(p, table);
    if table != [] {
      DistinctKeysStay(p, table[1..]);
      FilterMembers(p, table[1..]);
      forall x | x in Filter(p, table[1..])
        ensures x.key != table[0].key
      {
        var i :| 0 <= i < |table[1..]| && table[1..][i] == x;
        assert table[i + 1] == x;
      }
    }
  }

  class FlowAggregator {
    const timeout: int
    /** The keys of `flows` in insertion order. */
    var order: seq<Key>
    var flows: map<Key, ActiveFlow>
    /** The records appended to the day's store so far, in order. */
    var stored: seq<Record>
    /** The dictionary as a value. */
    ghost var table: Table<Flow>

    ghost predicate Valid()
      reads this, flows.Values
    {
      && NoDup(order) && |table| == |order|
      && (forall k :: k in order <==> k in flows)
      && (forall j, k :: j in flows && k in flows && j != k ==> flows[j] != flows[k])
      && (forall i :: 0 <= i < |order| ==> table[i] == Entry(order[i], flows[order[i]].Value()))
    }

    constructor (timeout: int)
      ensures Valid() && this.timeout == timeout && table == [] && stored == []
    {
      this.timeout := timeout;
      order, flows, stored, table := [], map[], [], [];
    }

    method RecordPacket(o: Obs, now: int)
      requires Valid()
      modifies this, flows.Values
      ensures Valid() && table == Recorded(old(table), o, now) && stored == old(stored)
      ensures fresh(flows.Values - old(flows.Values))
    {
      var key := FlowKey(o);
      if key.None? {
        return;
      }
      var k := key.value;
      RecordedAtIndex(table, o, now);
      ghost var i := IndexOf(k);
      if k in flows {
        UpdateFlow(k, i, o, now);
      } else {
        var flow := new ActiveFlow(o, now);
        flow.Update(o, now);
        AddFlow(k, flow);
      }
    }

    method UpdateFlow(k: Key, ghost i: nat, o: Obs, now: int)
      requires Valid() && k in flows && i < |order| && order[i] == k
      modifies this`table, flows[k]
      ensures Valid() && table == old(table)[i := Entry(k, Updated(old(table)[i].flow, o, now))]
    {
      flows[k].Update(o, now);
      table := table[i := Entry(k, flows[k].Value())];
    }

    method AddFlow(k: Key, flow: ActiveFlow)
      requires Valid() && k !in flows && flow !in flows.Values
      modifies this
      ensures Valid() && flows == old(flows)[k := flow] && stored == old(stored)
      ensures table == old(table) + [Entry(k, flow.Value())]
    {
      order, flows, table := order + [k], flows[k := flow], table + [Entry(k, flow.Value())];
    }

    /** Where the dictionary holds a key. */
    lemma IndexOf(k: Key) returns (i: nat)
      requires Valid()
      ensures i == Find(table, k) && (i < |order| <==> k in flows)
      ensures i < |order| ==> order[i] == k && table[i].flow == flows[k].Value()
    {
      i := Find(table, k);
      if k in flows {
        var at :| 0 <= at < |order| && order[at] == k;
        assert table[at].key == k;
      }
    }

    /** The dictionary's items at this moment. */
    method Items() returns (items: Table<Flow>)
      requires Valid()
      ensures items == table
    {
      items := [];
      for i := 0 to |order|
        invariant items == table[..i]
      {
        items := items + [Entry(order[i], flows[order[i]].Value())];
      }
    }

    /** Splits the items into those to keep and the records of those idle for the timeout. */
    static method Split(timeout: int, now: int, wall: string, items: Table<Flow>) returns (busy: Table<Flow>, records: seq<Record>)
      ensures busy == BusyPart(timeout, now, items) && records == IdleRecords(timeout, now, wall, items)
    {
      busy, records := [], [];
      for i := 0 to |items|
        invariant busy == BusyPart(timeout, now, items[..i]) && records == IdleRecords(timeout, now, wall, items[..i])
      {
        assert items[..i + 1] == items[..i] + [items[i]];
        SweepSnoc(timeout, now, wall, items[..i], items[i]);
        if Idle(items[i].flow, now, timeout) {
          records := records + [ToRecord(items[i].flow, wall)];
        } else {
          busy := busy + [items[i]];
        }
      }
      assert items[..|items|] == items;
    }

    /** The append of each finalised record in turn; one that fails is logged and its record is lost. */
    method Persist(records: seq<Record>, appends: nat -> bool)
      modifies this`stored
      ensures stored == old(stored) + Persisted(records, appends)
    {
      for i := 0 to |records|
        invariant stored == old(stored) + Persisted(records[..i], appends)
      {
        assert records[..i + 1][..i] == records[..i];
        if appends(i) {
          stored := stored + [records[i]];
        }
      }
      assert records[..|records|] == records;
    }

    /** `sweep_idle_flows`: the flows finalised leave the table whether or not their records could be appended. */
    method SweepIdleFlows(now: int, wall: string, appends: nat -> bool) returns (finalized: nat)
      requires Valid()
      modifies this
      ensures Valid() && flows.Values <= old(flows.Values)
      ensures var (table', records) := Aggregated(timeout, old(table), Sweep(now, wall));
              table == table' && stored == old(stored) + Persisted(records, appends) && finalized == |records|
    {
      var items := Items();
      var busy, records := Split(timeout, now, wall, items);
      DistinctKeysStay((x: Entry<Flow>) => !Idle(x.flow, now, timeout), items);
      Keep(busy);
      Persist(records, appends);
      finalized := |records|;
    }

    /** Drops every flow that is not among `busy`. */
    method Keep(busy: Table<Flow>)
      requires Valid() && DistinctKeys(busy) && forall x :: x in busy ==> x in table
      modifies this
      ensures Valid() && table == busy && stored == old(stored) && flows.Values <= old(flows.Values)
    {
      var keys := Map((x: Entry<Flow>) => x.key, busy);
      forall i | 0 <= i < |busy|
        ensures keys[i] in flows && busy[i].flow == flows[keys[i]].Value()
      {
        assert busy[i] in busy;
        var j :| 0 <= j < |table| && table[j] == busy[i];
        assert keys[i] == order[j];
      }
      order, flows, table := keys, map k | k in flows && k in keys :: flows[k], busy;
    }

    method FlushAll(wall: string, appends: nat -> bool) returns (finalized: nat)
      requires Valid()
      modifies this
      ensures Valid() && flows == map[]
      ensures forall now :: var (table', records) := Aggregated(timeout, old(table), Flush(now, wall));
              table == table' && stored == old(stored) + Persisted(records, appends) && finalized == |records|
    {
      ghost var all := Map((x: Entry<Flow>) => ToRecord(x.flow, wall), table);
      var records := [];
      for i := 0 to |order|
        invariant records == all[..i]
      {
        records := records + [ToRecord(flows[order[i]].Value(), wall)];
      }
      assert records == all[..|order|] == all;
      order, flows, table := [], map[], [];
      Persist(records, appends);
      finalized := |records|;
    }
  }
}
