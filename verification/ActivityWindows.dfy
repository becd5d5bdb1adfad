/** Per-device activity windows: what a device's summary counts, and that windows add up. */
module ActivityWindows {
  import opened Prelude
  import opened Text
  import Store = RotatingStoreModel

  /** A stored flow; `lastSeen` is None when its text is no timestamp. */
  datatype Item =
    | Flow(srcMac: Option<string>, dstMac: Option<string>, srcIp: Option<string>, dstIp: Option<string>,
           srcPort: Option<nat>, dstPort: Option<nat>, protocol: Option<string>, packets: nat, bytes: nat, lastSeen: Option<int>)
    | Junk

  type Counts<K> = map<K, nat>

  /** A device's counters; `ports` is keyed by the numbers whose texts are the keys of the record. */
  datatype Summary = Summary(flows: nat, packets: nat, bytes: nat, protocols: Counts<string>, ports: Counts<nat>,
                             internal: nat, external: nat, destinations: set<string>)

  const EMPTY := Summary(0, 0, 0, map[], map[], 0, 0, {})

  /** `is_private` of an address text, None if it is none. */
  type Privacy = string -> Option<bool>

  // ---------------------------------------------------------------- one flow

  function Get<K>(m: Counts<K>, k: K): nat { if k in m then m[k] else 0 }

  function ProtocolOf(f: Item): string
    requires f.Flow?
  {
    if f.protocol.Some? && f.protocol.value != "" then f.protocol.value else "UNKNOWN"
  }

  function LowerOf(mac: Option<string>): string { if mac.Some? then Lower(mac.value) else "" }

  function OtherPort(f: Item, mac: string): Option<nat>
    requires f.Flow?
  {
    if LowerOf(f.srcMac) == mac then f.dstPort else f.srcPort
  }

  function OtherIp(f: Item, mac: string): Option<string>
    requires f.Flow?
  {
    if LowerOf(f.srcMac) == mac then f.dstIp else f.srcIp
  }

  function PrivateIp(private: Privacy, ip: Option<string>): Option<bool> {
    if ip.None? || ip.value == "" then None else private(ip.value)
  }

  predicate IsInternal(private: Privacy, f: Item)
    requires f.Flow?
  {
    PrivateIp(private, f.srcIp) == Some(true) && PrivateIp(private, f.dstIp) == Some(true)
  }

  predicate IsExternal(private: Privacy, f: Item)
    requires f.Flow?
  {
    !IsInternal(private, f) && (PrivateIp(private, f.srcIp) == Some(false) || PrivateIp(private, f.dstIp) == Some(false))
  }

  /** `add_flow`. */
  function Added(private: Privacy, s: Summary, f: Item, mac: string): Summary
    requires f.Flow?
  {
    var port, ip := OtherPort(f, mac), OtherIp(f, mac);
    Summary(s.flows + 1, s.packets + f.packets, s.bytes + f.bytes,
            s.protocols[ProtocolOf(f) := Get(s.protocols, ProtocolOf(f)) + f.packets],
            if port.Some? then s.ports[port.value := Get(s.ports, port.value) + 1] else s.ports,
            if IsInternal(private, f) then s.internal + 1 else s.internal,
            if IsExternal(private, f) then s.external + 1 else s.external,
            if ip.Some? && ip.value != "" then s.destinations + {ip.value} else s.destinations)
  }

  function EndAt(end: Option<string>, mac: string): nat { if end.Some? && Lower(end.value) == mac then 1 else 0 }

  /** How often a flow counts for a device: once for each of its two ends. */
  function Ends(f: Item, mac: string): nat {
    if f.Junk? then 0 else EndAt(f.srcMac, mac) + EndAt(f.dstMac, mac)
  }

  function AddedTimes(private: Privacy, s: Summary, f: Item, mac: string, times: nat): Summary
    requires times > 0 ==> f.Flow?
  {
    if times == 0 then s else Added(private, AddedTimes(private, s, f, mac, times - 1), f, mac)
  }

  /** What a device's accumulator holds after these flows. */
  function SummaryOf(private: Privacy, mac: string, flows: seq<Item>): Summary {
    if flows == [] then EMPTY
    else
      var f := flows[|flows| - 1];
      AddedTimes(private, SummaryOf(private, mac, flows[..|flows| - 1]), f, mac, Ends(f, mac))
  }

  /** The accumulator as it is updated flow by flow. */
  class DeviceAccumulator {
    var flows: nat
    var packets: nat
    var bytes: nat
    var protocols: Counts<string>
    var ports: Counts<nat>
    var internal: nat
    var external: nat
    var destinations: set<string>

    function Value(): Summary
      reads this
    {
      Summary(flows, packets, bytes, protocols, ports, internal, external, destinations)
    }

    constructor ()
      ensures Value() == EMPTY
    {
      flows, packets, bytes, protocols, ports, internal, external, destinations := 0, 0, 0, map[], map[], 0, 0, {};
    }

    method AddFlow(private: Privacy, f: Item, mac: string)
      requires f.Flow?
      modifies this
      ensures Value() == Added(private, old(Value()), f, mac)
    {
      AddSizes(f);
      if LowerOf(f.srcMac) == mac {
        AddOther(f.dstPort, f.dstIp);
      } else {
        AddOther(f.srcPort, f.srcIp);
      }
      AddConnection(PrivateIp(private, f.srcIp), PrivateIp(private, f.dstIp));
    }

    method AddSizes(f: Item)
      requires f.Flow?
      modifies `flows, `packets, `bytes, `protocols
      ensures flows == old(flows) + 1 && packets == old(packets) + f.packets && bytes == old(bytes) + f.bytes
      ensures protocols == old(protocols)[ProtocolOf(f) := Get(old(protocols), ProtocolOf(f)) + f.packets]
    {
      flows, packets, bytes := flows + 1, packets + f.packets, bytes + f.bytes;
      var protocol := ProtocolOf(f);
      protocols := protocols[protocol := Get(protocols, protocol) + f.packets];
    }

    method AddOther(port: Option<nat>, ip: Option<string>)
      modifies `ports, `destinations
      ensures ports == if port.Some? then old(ports)[port.value := Get(old(ports), port.value) + 1] else old(ports)
      ensures destinations == if ip.Some? && ip.value != "" then old(destinations) + {ip.value} else old(destinations)
    {
      if port.Some? {
        ports := ports[port.value := Get(ports, port.value) + 1];
      }
      if ip.Some? && ip.value != "" {
        destinations := destinations + {ip.value};
      }
    }

    method AddConnection(src: Option<bool>, dst: Option<bool>)
      modifies `internal, `external
      ensures internal == old(internal) + if src == Some(true) && dst == Some(true) then 1 else 0
      ensures external == old(external) + if src == Some(false) || dst == Some(false) then 1 else 0
    {
      if src == Some(true) && dst == Some(true) {
        internal := internal + 1;
      } else if src == Some(false) || dst == Some(false) {
        external := external + 1;
      }
    }
  }

  // ---------------------------------------------------------------- known devices

  predicate Ascending(ms: seq<string>) { forall i, j :: 0 <= i < j < |ms| ==> StringLt(ms[i], ms[j]) }

  /** A name put at its place, unless it is there. */
  function Placed(ms: seq<string>, m: string): seq<string> {
    if ms == [] || StringLt(m, ms[0]) then [m] + ms
    else if m == ms[0] then ms
    else [ms[0]] + Placed(ms[1..], m)
  }

  /** The lower-cased MACs, each once, in order; entries that are no text are left out. */
  function KnownMacs(macs: seq<Option<string>>): seq<string> {
    if macs == [] then []
    else
      var rest, last := KnownMacs(macs[..|macs| - 1]), macs[|macs| - 1];
      if last.None? then rest else Placed(rest, Lower(last.value))
  }

  predicate IsKnown(macs: seq<Option<string>>, m: string) {
    exists i :: 0 <= i < |macs| && macs[i].Some? && Lower(macs[i].value) == m
  }

  lemma {:induction false} StringLtTransitive(a: string, b: string, c: string)
    requires StringLt(a, b) && StringLt(b, c)
    ensures StringLt(a, c)
  {
    StringLeTransitive(a, b, c);
    if a == c {
      StringLeAntisymmetric(a, b);
    }
  }

  lemma {:induction false} PlacedIsAscending(ms: seq<string>, m: string)
    requires Ascending(ms)
    ensures Ascending(Placed(ms, m))
    ensures forall x :: x in Placed(ms, m) <==> x in ms || x == m
  {
    if ms != [] {
      assert ms == [ms[0]] + ms[1..];
      if StringLt(m, ms[0]) {
        forall j | 0 <= j < |ms|
          ensures StringLt(m, ms[j])
        {
          if j > 0 {
            StringLtTransitive(m, ms[0], ms[j]);
          }
        }
      } else if m != ms[0] {
        StringLeTotal(m, ms[0]);
        PlacedIsAscending(ms[1..], m);
        var rest := Placed(ms[1..], m);
        forall j | 0 <= j < |rest|
          ensures StringLt(ms[0], rest[j])
        {
          assert rest[j] in rest;
        }
      }
    }
  }

  /** The known devices: exactly the distinct lower-cased MACs, in sorted order. */
  lemma {:induction false} KnownMacsAreDistinctAndSorted(macs: seq<Option<string>>)
    ensures Ascending(KnownMacs(macs))
    ensures forall m :: m in KnownMacs(macs) <==> IsKnown(macs, m)
  {
    if macs != [] {
      var n := |macs| - 1;
      KnownMacsAreDistinctAndSorted(macs[..n]);
      var rest := KnownMacs(macs[..n]);
      if macs[n].Some? {
        PlacedIsAscending(rest, Lower(macs[n].value));
      }
      forall m
        ensures IsKnown(macs, m) <==> IsKnown(macs[..n], m) || (macs[n].Some? && Lower(macs[n].value) == m)
      {
        if IsKnown(macs[..n], m) {
          var i :| 0 <= i < n && macs[..n][i].Some? && Lower(macs[..n][i].value) == m;
          assert macs[i].Some? && Lower(macs[i].value) == m;
        }
        if i :| 0 <= i < |macs| && macs[i].Some? && Lower(macs[i].value) == m {
          if i < n {
            assert macs[..n][i] == macs[i];
          }
        }
      }
    }
  }

  // ---------------------------------------------------------------- records

  datatype Record = Record(mac: string, start: int, end: int, active: bool, summary: Summary)

  function ToRecord(s: Summary, mac: string, start: int, end: int): Record { Record(mac, start, end, s.flows > 0, s) }

  function InactiveRecord(mac: string, start: int, end: int): Record { Record(mac, start, end, false, EMPTY) }

  function RecordOf(private: Privacy, mac: string, flows: seq<Item>, start: int, end: int): Record {
    var s := SummaryOf(private, mac, flows);
    if s.flows > 0 then ToRecord(s, mac, start, end) else InactiveRecord(mac, start, end)
  }

  function RecordsOf(private: Privacy, macs: seq<string>, flows: seq<Item>, start: int, end: int): seq<Record> {
    if macs == [] then []
    else RecordsOf(private, macs[..|macs| - 1], flows, start, end) + [RecordOf(private, macs[|macs| - 1], flows, start, end)]
  }

  function MacOf(r: Record): string { r.mac }

  type Table = map<string, Summary>

  ghost predicate Holds(private: Privacy, known: seq<string>, table: Table, flows: seq<Item>) {
    forall m :: m in known ==> m in table && table[m] == SummaryOf(private, m, flows)
  }

  method AddEnd(private: Privacy, known: seq<string>, table: Table, f: Item, mac: Option<string>) returns (t: Table)
    requires f.Flow? && forall m :: m in known ==> m in table
    ensures t == if mac.Some? && Lower(mac.value) in known
                 then table[Lower(mac.value) := Added(private, table[Lower(mac.value)], f, Lower(mac.value))] else table
  {
    t := table;
    if mac.Some? {
      var m := Lower(mac.value);
      if m in known {
        t := t[m := Added(private, t[m], f, m)];
      }
    }
  }

  lemma {:induction false} EndsAreAdded(private: Privacy, s: Summary, f: Item, mac: string)
    requires f.Flow?
    ensures AddedTimes(private, s, f, mac, 0) == s
    ensures AddedTimes(private, s, f, mac, 1) == Added(private, s, f, mac)
    ensures AddedTimes(private, s, f, mac, 2) == Added(private, Added(private, s, f, mac), f, mac)
  {
    assert AddedTimes(private, s, f, mac, 1) == Added(private, AddedTimes(private, s, f, mac, 0), f, mac);
  }

  method AddToAll(private: Privacy, known: seq<string>, table: Table, flows: seq<Item>, i: nat) returns (t: Table)
    requires i < |flows| && Holds(private, known, table, flows[..i])
    ensures Holds(private, known, t, flows[..i + 1])
  {
    var f := flows[i];
    assert flows[..i + 1][..i] == flows[..i];
    if f.Junk? {
      return table;
    }
    var t1 := AddEnd(private, known, table, f, f.srcMac);
    t := AddEnd(private, known, t1, f, f.dstMac);
    forall m | m in known
      ensures m in t && t[m] == SummaryOf(private, m, flows[..i + 1])
    {
      EndsAreAdded(private, table[m], f, m);
    }
  }

  /** `build_activity_window_records`. */
  method BuildRecords(private: Privacy, flows: seq<Item>, macs: seq<Option<string>>, start: int, end: int) returns (records: seq<Record>)
    ensures records == RecordsOf(private, KnownMacs(macs), flows, start, end)
  {
    var known := KnownMacs(macs);
    var table: Table := map m | m in known :: EMPTY;
    for i := 0 to |flows|
      invariant Holds(private, known, table, flows[..i])
    {
      table := AddToAll(private, known, table, flows, i);
    }
    assert flows[..|flows|] == flows;
    records := [];
    for k := 0 to |known|
      invariant records == RecordsOf(private, known[..k], flows, start, end)
    {
      var mac := known[k];
      assert mac in known && known[..k + 1][..k] == known[..k];
      var s := table[mac];
      records := records + [if s.flows > 0 then ToRecord(s, mac, start, end) else InactiveRecord(mac, start, end)];
    }
    assert known[..|known|] == known;
  }

  lemma {:induction false} RecordsAt(private: Privacy, macs: seq<string>, flows: seq<Item>, start: int, end: int)
    ensures var rs := RecordsOf(private, macs, flows, start, end);
            |rs| == |macs| && forall i :: 0 <= i < |macs| ==> rs[i] == RecordOf(private, macs[i], flows, start, end)
  {
    if macs != [] {
      RecordsAt(private, macs[..|macs| - 1], flows, start, end);
    }
  }

  /**
   * One record for each distinct lower-cased known MAC, in sorted order; the one of a device without flows is the
   * record of an empty accumulator.
   */
  lemma {:induction false} OneRecordPerDevice(private: Privacy, macs: seq<Option<string>>, flows: seq<Item>, start: int, end: int)
    ensures var rs := RecordsOf(private, KnownMacs(macs), flows, start, end);
            && (forall i, j :: 0 <= i < j < |rs| ==> StringLt(rs[i].mac, rs[j].mac))
            && (forall i :: 0 <= i < |rs| ==> rs[i] == ToRecord(SummaryOf(private, rs[i].mac, flows), rs[i].mac, start, end))
            && Map(MacOf, rs) == KnownMacs(macs) && (forall m :: m in Map(MacOf, rs) <==> IsKnown(macs, m))
  {
    var known := KnownMacs(macs);
    var rs := RecordsOf(private, known, flows, start, end);
    KnownMacsAreDistinctAndSorted(macs);
    RecordsAt(private, known, flows, start, end);
    forall i | 0 <= i < |rs|
      ensures rs[i].mac == known[i] && rs[i] == ToRecord(SummaryOf(private, rs[i].mac, flows), rs[i].mac, start, end)
    {
      NoFlowsMeansEmpty(private, known[i], flows);
    }
    assert Map(MacOf, rs) == known;
  }

  /**
   * Each record names the window and tells its device's flows; it says that the device was active exactly if the
   * device is at an end of one of them.
   */
  lemma {:induction false} RecordsTellTheirDevices(private: Privacy, macs: seq<Option<string>>, flows: seq<Item>, start: int, end: int)
    ensures var rs := RecordsOf(private, KnownMacs(macs), flows, start, end);
            forall i :: 0 <= i < |rs| ==>
              && rs[i].start == start && rs[i].end == end
              && Tells(private, rs[i].mac, rs[i].summary, FlowsOf(rs[i].mac, flows))
              && (rs[i].active <==> exists k :: 0 <= k < |flows| && IsAnEnd(flows[k], rs[i].mac))
  {
    var rs := RecordsOf(private, KnownMacs(macs), flows, start, end);
    OneRecordPerDevice(private, macs, flows, start, end);
    forall i | 0 <= i < |rs|
      ensures Tells(private, rs[i].mac, rs[i].summary, FlowsOf(rs[i].mac, flows))
      ensures rs[i].active <==> exists k :: 0 <= k < |flows| && IsAnEnd(flows[k], rs[i].mac)
    {
      SummaryTellsItsFlows(private, rs[i].mac, flows);
      NoEndsNoFlows(private, rs[i].mac, flows);
      assert forall k :: 0 <= k < |flows| ==> flows[k] in flows && (Ends(flows[k], rs[i].mac) > 0 <==> IsAnEnd(flows[k], rs[i].mac));
    }
  }

  /** One of the flow's addresses is the device's, whatever its case. */
  predicate IsAnEnd(f: Item, mac: string) {
    f.Flow? && ((f.srcMac.Some? && Lower(f.srcMac.value) == mac) || (f.dstMac.Some? && Lower(f.dstMac.value) == mac))
  }

  lemma {:induction false} AddedTimesShape(private: Privacy, s: Summary, f: Item, mac: string, times: nat)
    requires times > 0 ==> f.Flow?
    ensures AddedTimes(private, s, f, mac, times).flows == s.flows + times
    ensures times == 0 ==> AddedTimes(private, s, f, mac, times) == s
    ensures s.internal + s.external <= s.flows ==>
              var s' := AddedTimes(private, s, f, mac, times); s'.internal + s'.external <= s'.flows
  {
    if times > 0 {
      AddedTimesShape(private, s, f, mac, times - 1);
    }
  }

  /** A device with no flows has the empty summary: the explicit inactive record says nothing else. */
  lemma {:induction false} NoFlowsMeansEmpty(private: Privacy, mac: string, flows: seq<Item>)
    ensures SummaryOf(private, mac, flows).flows == 0 ==> SummaryOf(private, mac, flows) == EMPTY
  {
    if flows != [] {
      var n := |flows| - 1;
      NoFlowsMeansEmpty(private, mac, flows[..n]);
      AddedTimesShape(private, SummaryOf(private, mac, flows[..n]), flows[n], mac, Ends(flows[n], mac));
    }
  }

  /** Internal and external connections are flows of the device. */
  lemma {:induction false} ConnectionsAreFlows(private: Privacy, mac: string, flows: seq<Item>)
    ensures var s := SummaryOf(private, mac, flows); s.internal + s.external <= s.flows
  {
    if flows != [] {
      var n := |flows| - 1;
      ConnectionsAreFlows(private, mac, flows[..n]);
      AddedTimesShape(private, SummaryOf(private, mac, flows[..n]), flows[n], mac, Ends(flows[n], mac));
    }
  }

  // ---------------------------------------------------------------- conservation

  /** The sum of all counts. */
  ghost function Total<K>(m: Counts<K>): nat {
    if m == map[] then 0
    else
      var k :| k in m;
      m[k] + Total(m - {k})
  }

  lemma {:induction false} TotalWithout<K>(m: Counts<K>, k: K)
    requires k in m
    ensures Total(m) == m[k] + Total(m - {k})
    decreases |m|
  {
    var j :| j in m && Total(m) == m[j] + Total(m - {j});
    if j != k {
      TotalWithout(m - {j}, k);
      TotalWithout(m - {k}, j);
      assert m - {j} - {k} == m - {k} - {j};
    }
  }

  lemma {:induction false} TotalOfIncreased<K>(m: Counts<K>, k: K, n: nat)
    ensures Total(m[k := Get(m, k) + n]) == Total(m) + n
  {
    var m' := m[k := Get(m, k) + n];
    TotalWithout(m', k);
    if k in m {
      TotalWithout(m, k);
      assert m' - {k} == m - {k};
    } else {
      assert m' - {k} == m;
    }
  }

  /** The protocol counts of a device sum to its packet count. */
  lemma {:induction false} ProtocolsSumToPackets(private: Privacy, mac: string, flows: seq<Item>)
    ensures Total(SummaryOf(private, mac, flows).protocols) == SummaryOf(private, mac, flows).packets
  {
    if flows != [] {
      var n := |flows| - 1;
      ProtocolsSumToPackets(private, mac, flows[..n]);
      ProtocolsOfAdded(private, SummaryOf(private, mac, flows[..n]), flows[n], mac, Ends(flows[n], mac));
    }
  }

  lemma {:induction false} AddedKeepsTotal(private: Privacy, s: Summary, f: Item, mac: string)
    requires f.Flow? && Total(s.protocols) == s.packets
    ensures var s' := Added(private, s, f, mac); Total(s'.protocols) == s'.packets
  {
    TotalOfIncreased(s.protocols, ProtocolOf(f), f.packets);
  }

  lemma {:induction false} ProtocolsOfAdded(private: Privacy, s: Summary, f: Item, mac: string, times: nat)
    requires (times > 0 ==> f.Flow?) && Total(s.protocols) == s.packets
    ensures var s' := AddedTimes(private, s, f, mac, times); Total(s'.protocols) == s'.packets
  {
    if times > 0 {
      ProtocolsOfAdded(private, s, f, mac, times - 1);
      AddedKeepsTotal(private, AddedTimes(private, s, f, mac, times - 1), f, mac);
    }
  }

  function FlowTotal(private: Privacy, macs: seq<string>, flows: seq<Item>): nat {
    if macs == [] then 0 else FlowTotal(private, macs[..|macs| - 1], flows) + SummaryOf(private, macs[|macs| - 1], flows).flows
  }

  /** How many ends of flows are known devices; a flow from a device to itself has two. */
  function KnownEnds(macs: seq<string>, f: Item): nat {
    if f.Junk? then 0
    else (if f.srcMac.Some? && Lower(f.srcMac.value) in macs then 1 else 0) + (if f.dstMac.Some? && Lower(f.dstMac.value) in macs then 1 else 0)
  }

  function KnownEndsOf(macs: seq<string>, flows: seq<Item>): nat {
    if flows == [] then 0 else KnownEndsOf(macs, flows[..|flows| - 1]) + KnownEnds(macs, flows[|flows| - 1])
  }

  function EndsTotal(macs: seq<string>, f: Item): nat {
    if macs == [] then 0 else EndsTotal(macs[..|macs| - 1], f) + Ends(f, macs[|macs| - 1])
  }

  lemma {:induction false} EndsTotalIsKnownEnds(macs: seq<string>, f: Item)
    requires NoDup(macs)
    ensures EndsTotal(macs, f) == KnownEnds(macs, f)
  {
    if macs != [] {
      var n := |macs| - 1;
      EndsTotalIsKnownEnds(macs[..n], f);
      assert macs == macs[..n] + [macs[n]];
      assert macs[n] !in macs[..n];
    }
  }

  lemma {:induction false} FlowTotalSnoc(private: Privacy, macs: seq<string>, flows: seq<Item>, f: Item)
    ensures FlowTotal(private, macs, flows + [f]) == FlowTotal(private, macs, flows) + EndsTotal(macs, f)
  {
    if macs != [] {
      var m := macs[|macs| - 1];
      FlowTotalSnoc(private, macs[..|macs| - 1], flows, f);
      assert (flows + [f])[..|flows|] == flows;
      AddedTimesShape(private, SummaryOf(private, m, flows), f, m, Ends(f, m));
    }
  }

  lemma {:induction false} FlowTotalOfNone(private: Privacy, macs: seq<string>)
    ensures FlowTotal(private, macs, []) == 0
  {
    if macs != [] {
      FlowTotalOfNone(private, macs[..|macs| - 1]);
    }
  }

  /** The flow counts of all devices sum to the number of ends the flows have among them. */
  lemma {:induction false} FlowCountsAreEnds(private: Privacy, macs: seq<string>, flows: seq<Item>)
    requires NoDup(macs)
    ensures FlowTotal(private, macs, flows) == KnownEndsOf(macs, flows)
    decreases |flows|
  {
    if flows == [] {
      FlowTotalOfNone(private, macs);
    } else {
      var n := |flows| - 1;
      FlowCountsAreEnds(private, macs, flows[..n]);
      FlowTotalSnoc(private, macs, flows[..n], flows[n]);
      assert flows == flows[..n] + [flows[n]];
      EndsTotalIsKnownEnds(macs, flows[n]);
    }
  }

  // ---------------------------------------------------------------- what a summary counts

  function Repeated(f: Item, times: nat): seq<Item> { if times == 0 then [] else Repeated(f, times - 1) + [f] }

  /** The flows of a device, each as often as it is an end of it. */
  function FlowsOf(mac: string, flows: seq<Item>): seq<Item> {
    if flows == [] then []
    else FlowsOf(mac, flows[..|flows| - 1]) + Repeated(flows[|flows| - 1], Ends(flows[|flows| - 1], mac))
  }

  function SumBy(size: Item -> nat, fs: seq<Item>): nat {
    if fs == [] then 0 else SumBy(size, fs[..|fs| - 1]) + size(fs[|fs| - 1])
  }

  function PacketsOf(f: Item): nat { if f.Flow? then f.packets else 0 }

  function BytesOf(f: Item): nat { if f.Flow? then f.bytes else 0 }

  function HasProtocol(protocol: string): Item -> bool {
    (f: Item) => f.Flow? && (if f.protocol.None? || f.protocol.value == "" then protocol == "UNKNOWN" else protocol == f.protocol.value)
  }

  /** The device is the flow's source. */
  predicate SendsAs(f: Item, mac: string) { f.Flow? && (if f.srcMac.None? then "" else Lower(f.srcMac.value)) == mac }

  function HasPeerPort(mac: string, port: nat): Item -> bool {
    (f: Item) => f.Flow? && ((SendsAs(f, mac) && f.dstPort == Some(port)) || (!SendsAs(f, mac) && f.srcPort == Some(port)))
  }

  function HasPeerIp(mac: string, ip: string): Item -> bool {
    (f: Item) => f.Flow? && ((SendsAs(f, mac) && f.dstIp == Some(ip)) || (!SendsAs(f, mac) && f.srcIp == Some(ip)))
  }

  /** The address is there and is known to be private, or known not to be. */
  predicate IsPrivate(private: Privacy, ip: Option<string>, yes: bool) { ip.Some? && ip.value != "" && private(ip.value) == Some(yes) }

  function Internal(private: Privacy): Item -> bool {
    (f: Item) => f.Flow? && IsPrivate(private, f.srcIp, true) && IsPrivate(private, f.dstIp, true)
  }

  function External(private: Privacy): Item -> bool {
    (f: Item) => f.Flow? && (IsPrivate(private, f.srcIp, false) || IsPrivate(private, f.dstIp, false))
  }

  /** The summary counts these flows. */
  ghost predicate Tells(private: Privacy, mac: string, s: Summary, fs: seq<Item>) {
    && s.flows == |fs| && s.packets == SumBy(PacketsOf, fs) && s.bytes == SumBy(BytesOf, fs)
    && s.internal == |Filter(Internal(private), fs)| && s.external == |Filter(External(private), fs)|
    && (forall q :: Get(s.protocols, q) == SumBy(PacketsOf, Filter(HasProtocol(q), fs)))
    && (forall n :: Get(s.ports, n) == |Filter(HasPeerPort(mac, n), fs)|)
    && (forall ip :: ip in s.destinations <==> ip != "" && Filter(HasPeerIp(mac, ip), fs) != [])
  }

  lemma {:induction false} SumBySnoc(size: Item -> nat, fs: seq<Item>, f: Item)
    ensures SumBy(size, fs + [f]) == SumBy(size, fs) + size(f)
  {
    assert (fs + [f])[..|fs|] == fs;
  }

  lemma {:induction false} ConnectionsTell(private: Privacy, f: Item)
    requires f.Flow?
    ensures Internal(private)(f) <==> IsInternal(private, f)
    ensures External(private)(f) <==> IsExternal(private, f)
  {
  }

  lemma {:induction false} AddedTellsProtocols(private: Privacy, mac: string, s: Summary, fs: seq<Item>, f: Item, q: string)
    requires f.Flow? && Get(s.protocols, q) == SumBy(PacketsOf, Filter(HasProtocol(q), fs))
    ensures Get(Added(private, s, f, mac).protocols, q) == SumBy(PacketsOf, Filter(HasProtocol(q), fs + [f]))
  {
    FilterSnoc(HasProtocol(q), fs, f);
    SumBySnoc(PacketsOf, Filter(HasProtocol(q), fs), f);
  }

  lemma {:induction false} AddedTellsTotals(private: Privacy, mac: string, s: Summary, fs: seq<Item>, f: Item)
    requires f.Flow? && s.flows == |fs| && s.packets == SumBy(PacketsOf, fs) && s.bytes == SumBy(BytesOf, fs)
    requires s.internal == |Filter(Internal(private), fs)| && s.external == |Filter(External(private), fs)|
    ensures var s' := Added(private, s, f, mac);
            && s'.flows == |fs + [f]| && s'.packets == SumBy(PacketsOf, fs + [f]) && s'.bytes == SumBy(BytesOf, fs + [f])
            && s'.internal == |Filter(Internal(private), fs + [f])| && s'.external == |Filter(External(private), fs + [f])|
  {
    SumBySnoc(PacketsOf, fs, f);
    SumBySnoc(BytesOf, fs, f);
    ConnectionsTell(private, f);
    FilterSnoc(Internal(private), fs, f);
    FilterSnoc(External(private), fs, f);
  }

  lemma {:induction false} AddedTells(private: Privacy, mac: string, s: Summary, fs: seq<Item>, f: Item)
    requires f.Flow? && Tells(private, mac, s, fs)
    ensures Tells(private, mac, Added(private, s, f, mac), fs + [f])
  {
    AddedTellsTotals(private, mac, s, fs, f);
    forall q
      ensures Get(Added(private, s, f, mac).protocols, q) == SumBy(PacketsOf, Filter(HasProtocol(q), fs + [f]))
    {
      AddedTellsProtocols(private, mac, s, fs, f, q);
    }
    AddedTellsPeers(private, mac, s, fs, f);
  }

  lemma {:induction false} AddedTellsPeers(private: Privacy, mac: string, s: Summary, fs: seq<Item>, f: Item)
    requires f.Flow?
    requires forall n :: Get(s.ports, n) == |Filter(HasPeerPort(mac, n), fs)|
    requires forall ip :: ip in s.destinations <==> ip != "" && Filter(HasPeerIp(mac, ip), fs) != []
    ensures var s' := Added(private, s, f, mac);
            && (forall n :: Get(s'.ports, n) == |Filter(HasPeerPort(mac, n), fs + [f])|)
            && (forall ip :: ip in s'.destinations <==> ip != "" && Filter(HasPeerIp(mac, ip), fs + [f]) != [])
  {
    var s' := Added(private, s, f, mac);
    forall n
      ensures Get(s'.ports, n) == |Filter(HasPeerPort(mac, n), fs + [f])|
    {
      assert Get(s.ports, n) == |Filter(HasPeerPort(mac, n), fs)|;
      FilterSnoc(HasPeerPort(mac, n), fs, f);
    }
    forall ip
      ensures ip in s'.destinations <==> ip != "" && Filter(HasPeerIp(mac, ip), fs + [f]) != []
    {
      assert ip in s.destinations <==> ip != "" && Filter(HasPeerIp(mac, ip), fs) != [];
      FilterSnoc(HasPeerIp(mac, ip), fs, f);
    }
  }

  lemma {:induction false} AddedTimesTells(private: Privacy, mac: string, s: Summary, fs: seq<Item>, f: Item, times: nat)
    requires (times > 0 ==> f.Flow?) && Tells(private, mac, s, fs)
    ensures Tells(private, mac, AddedTimes(private, s, f, mac, times), fs + Repeated(f, times))
  {
    if times == 0 {
      assert fs + [] == fs;
    } else {
      AddedTimesTells(private, mac, s, fs, f, times - 1);
      AddedTells(private, mac, AddedTimes(private, s, f, mac, times - 1), fs + Repeated(f, times - 1), f);
      assert fs + Repeated(f, times) == (fs + Repeated(f, times - 1)) + [f];
    }
  }

  /**
   * A device's summary counts its flows, once for each end: flows, packets, bytes, packets by protocol, flows by
   * the peer's port, internal and external connections, and the peers' addresses.
   */
  lemma {:induction false} SummaryTellsItsFlows(private: Privacy, mac: string, flows: seq<Item>)
    ensures Tells(private, mac, SummaryOf(private, mac, flows), FlowsOf(mac, flows))
  {
    if flows != [] {
      var n := |flows| - 1;
      SummaryTellsItsFlows(private, mac, flows[..n]);
      AddedTimesTells(private, mac, SummaryOf(private, mac, flows[..n]), FlowsOf(mac, flows[..n]), flows[n], Ends(flows[n], mac));
    }
  }

  /** The peer of a device in a flow between two devices is the other end. */
  lemma {:induction false} PeerIsTheOtherEnd(f: Item, mac: string)
    requires f.Flow? && Ends(f, mac) == 1 && mac != ""
    ensures EndAt(f.srcMac, mac) == 1 ==> OtherPort(f, mac) == f.dstPort && OtherIp(f, mac) == f.dstIp
    ensures EndAt(f.dstMac, mac) == 1 ==> OtherPort(f, mac) == f.srcPort && OtherIp(f, mac) == f.srcIp
  {
  }

  // ---------------------------------------------------------------- summaries add up

  function PlusCounts<K>(m: Counts<K>, n: Counts<K>): Counts<K> { map k | k in m.Keys + n.Keys :: Get(m, k) + Get(n, k) }

  function Plus(a: Summary, b: Summary): Summary {
    Summary(a.flows + b.flows, a.packets + b.packets, a.bytes + b.bytes, PlusCounts(a.protocols, b.protocols),
            PlusCounts(a.ports, b.ports), a.internal + b.internal, a.external + b.external, a.destinations + b.destinations)
  }

  lemma {:induction false} PlusLaws(a: Summary, b: Summary, c: Summary)
    ensures Plus(a, b) == Plus(b, a)
    ensures Plus(Plus(a, b), c) == Plus(a, Plus(b, c))
    ensures Plus(a, EMPTY) == a
  {
    CountsLaws(a.protocols, b.protocols, c.protocols);
    CountsLaws(a.ports, b.ports, c.ports);
  }

  lemma {:induction false} GetOfPlus<K>(m: Counts<K>, n: Counts<K>, k: K)
    ensures Get(PlusCounts(m, n), k) == Get(m, k) + Get(n, k)
    ensures PlusCounts(m, n).Keys == m.Keys + n.Keys
  {
  }

  lemma {:induction false} CountsAssociate<K>(m: Counts<K>, n: Counts<K>, l: Counts<K>)
    ensures PlusCounts(PlusCounts(m, n), l) == PlusCounts(m, PlusCounts(n, l))
  {
    var left, right := PlusCounts(PlusCounts(m, n), l), PlusCounts(m, PlusCounts(n, l));
    assert PlusCounts(m, n).Keys == m.Keys + n.Keys && PlusCounts(n, l).Keys == n.Keys + l.Keys;
    assert left.Keys == right.Keys;
    forall k | k in left
      ensures left[k] == right[k]
    {
      GetOfPlus(m, n, k);
      GetOfPlus(n, l, k);
    }
  }

  lemma {:induction false} CountsLaws<K>(m: Counts<K>, n: Counts<K>, l: Counts<K>)
    ensures PlusCounts(m, n) == PlusCounts(n, m)
    ensures PlusCounts(PlusCounts(m, n), l) == PlusCounts(m, PlusCounts(n, l))
    ensures PlusCounts(m, map[]) == m
  {
    CountsAssociate(m, n, l);
  }

  lemma {:induction false} AddedIsPlus(private: Privacy, s: Summary, f: Item, mac: string)
    requires f.Flow?
    ensures Added(private, s, f, mac) == Plus(s, Added(private, EMPTY, f, mac))
  {
    var one := Added(private, EMPTY, f, mac);
    assert Added(private, s, f, mac).protocols == PlusCounts(s.protocols, one.protocols);
    assert Added(private, s, f, mac).ports == PlusCounts(s.ports, one.ports);
  }

  lemma {:induction false} AddedTimesIsPlus(private: Privacy, s: Summary, f: Item, mac: string, times: nat)
    requires times > 0 ==> f.Flow?
    ensures AddedTimes(private, s, f, mac, times) == Plus(s, AddedTimes(private, EMPTY, f, mac, times))
  {
    if times == 0 {
      PlusLaws(s, EMPTY, EMPTY);
    } else {
      AddedTimesIsPlus(private, s, f, mac, times - 1);
      AddedToPlus(private, s, AddedTimes(private, EMPTY, f, mac, times - 1), f, mac);
    }
  }

  lemma {:induction false} AddedToPlus(private: Privacy, s: Summary, t: Summary, f: Item, mac: string)
    requires f.Flow?
    ensures Added(private, Plus(s, t), f, mac) == Plus(s, Added(private, t, f, mac))
  {
    AddedIsPlus(private, Plus(s, t), f, mac);
    AddedIsPlus(private, t, f, mac);
    PlusLaws(s, t, Added(private, EMPTY, f, mac));
  }

  /** The summary of a concatenation is the sum of the summaries. */
  lemma {:induction false} SummariesAddUp(private: Privacy, mac: string, a: seq<Item>, b: seq<Item>)
    ensures SummaryOf(private, mac, a + b) == Plus(SummaryOf(private, mac, a), SummaryOf(private, mac, b))
    decreases |b|
  {
    if b == [] {
      assert a + b == a;
      PlusLaws(SummaryOf(private, mac, a), EMPTY, EMPTY);
    } else {
      var n := |b| - 1;
      var f, times := b[n], Ends(b[n], mac);
      assert (a + b)[..|a + b| - 1] == a + b[..n];
      SummariesAddUp(private, mac, a, b[..n]);
      var one := AddedTimes(private, EMPTY, f, mac, times);
      AddedTimesIsPlus(private, SummaryOf(private, mac, a + b[..n]), f, mac, times);
      AddedTimesIsPlus(private, SummaryOf(private, mac, b[..n]), f, mac, times);
      PlusLaws(SummaryOf(private, mac, a), SummaryOf(private, mac, b[..n]), one);
    }
  }

  lemma {:induction false} SameRest<T>(a: seq<T>, b: seq<T>, i: nat)
    requires a != [] && i < |b| && multiset(a) == multiset(b) && b[i] == a[|a| - 1]
    ensures multiset(a[..|a| - 1]) == multiset(b[..i] + b[i + 1..])
  {
    var f, x, y := b[i], b[..i], b[i + 1..];
    assert a == a[..|a| - 1] + [f] && b == x + [f] + y;
    assert multiset(b) == multiset(x) + multiset([f]) + multiset(y) == multiset(x + y) + multiset([f]);
    assert multiset(a) == multiset(a[..|a| - 1]) + multiset([f]);
    Cancel(multiset(a[..|a| - 1]), multiset(x + y), multiset([f]));
  }

  lemma {:induction false} Cancel<T>(m: multiset<T>, n: multiset<T>, k: multiset<T>)
    requires m + k == n + k
    ensures m == n
  {
    forall x
      ensures m[x] == n[x]
    {
      assert (m + k)[x] == (n + k)[x];
    }
  }

  /** The order of the flows does not matter. */
  lemma {:induction false} OrderDoesNotMatter(private: Privacy, mac: string, a: seq<Item>, b: seq<Item>)
    requires multiset(a) == multiset(b)
    ensures SummaryOf(private, mac, a) == SummaryOf(private, mac, b)
    decreases |a|
  {
    if a == [] {
      assert |multiset(b)| == 0;
      assert b == [];
    } else {
      var n := |a| - 1;
      var f := a[n];
      assert f in multiset(b);
      var i :| 0 <= i < |b| && b[i] == f;
      var x, y := b[..i], b[i + 1..];
      SameRest(a, b, i);
      assert b == x + ([f] + y) && a == a[..n] + [f];
      OrderDoesNotMatter(private, mac, a[..n], x + y);
      SummariesAddUp(private, mac, a[..n], [f]);
      SummariesAddUp(private, mac, x, y);
      SummariesAddUp(private, mac, x, [f] + y);
      SummariesAddUp(private, mac, [f], y);
      PlusLaws(SummaryOf(private, mac, x), SummaryOf(private, mac, y), SummaryOf(private, mac, [f]));
      PlusLaws(SummaryOf(private, mac, y), SummaryOf(private, mac, [f]), EMPTY);
    }
  }

  // ---------------------------------------------------------------- windows

  function WindowBounds(end: int, seconds: int): (int, int) { (end - seconds, end) }

  /** `_flow_in_window`: half-open, and never for a flow without a timestamp. */
  function InWindow(start: int, end: int): Item -> bool {
    (f: Item) => f.Flow? && f.lastSeen.Some? && start <= f.lastSeen.value < end
  }

  lemma {:induction false} SplitFilter<T>(whole: T -> bool, early: T -> bool, late: T -> bool, s: seq<T>)
    requires forall i :: 0 <= i < |s| ==> (whole(s[i]) <==> early(s[i]) || late(s[i])) && !(early(s[i]) && late(s[i]))
    ensures multiset(Filter(whole, s)) == multiset(Filter(early, s)) + multiset(Filter(late, s))
  {
    if s != [] {
      SplitFilter(whole, early, late, s[1..]);
    }
  }

  lemma {:induction false} AddWindow(private: Privacy, mac: string, flows: seq<Item>, start: int, middle: int, end: int)
    requires start <= middle <= end
    ensures SummaryOf(private, mac, Filter(InWindow(start, end), flows))
         == Plus(SummaryOf(private, mac, Filter(InWindow(start, middle), flows)), SummaryOf(private, mac, Filter(InWindow(middle, end), flows)))
  {
    SplitFilter(InWindow(start, end), InWindow(start, middle), InWindow(middle, end), flows);
    var whole, early, late := Filter(InWindow(start, end), flows), Filter(InWindow(start, middle), flows), Filter(InWindow(middle, end), flows);
    assert multiset(whole) == multiset(early + late);
    OrderDoesNotMatter(private, mac, whole, early + late);
    SummariesAddUp(private, mac, early, late);
  }

  /** The sum over the `n` windows, each `seconds` long, the last of which ends at `end`. */
  function SumOver<S>(plus: (S, S) -> S, empty: S, part: (int, int) -> S, end: int, seconds: nat, n: nat): S
    decreases n
  {
    if n == 0 then empty
    else
      var (from, to) := WindowBounds(end, seconds);
      plus(SumOver(plus, empty, part, end - seconds, seconds, n - 1), part(from, to))
  }

  ghost predicate JoinsAt<S>(plus: (S, S) -> S, part: (int, int) -> S, start: int, middle: int, end: int) {
    plus(part(start, middle), part(middle, end)) == part(start, end)
  }

  lemma {:induction false} AdditivePartsSumUp<S>(plus: (S, S) -> S, empty: S, part: (int, int) -> S, start: int, end: int, seconds: nat, n: nat)
    requires part(start, start) == empty
    requires forall b: int, c: int :: start <= b <= c ==> JoinsAt(plus, part, start, b, c)
    requires start == end - n * seconds
    ensures SumOver(plus, empty, part, end, seconds, n) == part(start, end)
    decreases n
  {
    if n > 0 {
      OneLess(n, seconds);
      AdditivePartsSumUp(plus, empty, part, start, end - seconds, seconds, n - 1);
      assert JoinsAt(plus, part, start, end - seconds, end);
    }
  }

  lemma {:induction false} OneLess(n: nat, seconds: nat)
    requires n > 0
    ensures n * seconds == (n - 1) * seconds + seconds && (n - 1) * seconds >= 0
  {
  }

  /** A device's summary of the flows of a window. */
  function WindowSummary(private: Privacy, mac: string, flows: seq<Item>): (int, int) -> Summary {
    (start: int, end: int) => SummaryOf(private, mac, Filter(InWindow(start, end), flows))
  }

  lemma {:induction false} WindowJoins(private: Privacy, mac: string, flows: seq<Item>, start: int, middle: int, end: int)
    requires start <= middle <= end
    ensures JoinsAt(Plus, WindowSummary(private, mac, flows), start, middle, end)
  {
    AddWindow(private, mac, flows, start, middle, end);
  }

  lemma {:induction false} EmptyWindow(private: Privacy, mac: string, flows: seq<Item>, at: int)
    ensures WindowSummary(private, mac, flows)(at, at) == EMPTY
  {
    FilterNone(InWindow(at, at), flows);
  }

  /** Windows whose ends step by their length count each flow of their span exactly once: their summaries add up to the span's. */
  lemma {:induction false} WindowsPartitionTheSpan(private: Privacy, mac: string, flows: seq<Item>, start: int, end: int, seconds: nat, n: nat)
    requires start == end - n * seconds
    ensures SumOver(Plus, EMPTY, WindowSummary(private, mac, flows), end, seconds, n)
         == WindowSummary(private, mac, flows)(start, end)
  {
    var part := WindowSummary(private, mac, flows);
    EmptyWindow(private, mac, flows, start);
    forall b: int, c: int | start <= b <= c
      ensures JoinsAt(Plus, part, start, b, c)
    {
      WindowJoins(private, mac, flows, start, b, c);
    }
    AdditivePartsSumUp(Plus, EMPTY, part, start, end, seconds, n);
  }

  /** In the window numbered `k` of those that follow each other from `start` on. */
  predicate InNth(f: Item, start: int, seconds: nat, k: int) {
    InWindow(start + k * seconds, start + (k + 1) * seconds)(f)
  }

  lemma {:induction false} InOneWindowOnly(f: Item, start: int, seconds: nat, k: int, l: int)
    requires InNth(f, start, seconds, k)
    ensures InNth(f, start, seconds, l) <==> k == l
  {
    if k < l {
      MultiplyGrows(k + 1, l, seconds);
    } else if l < k {
      MultiplyGrows(l + 1, k, seconds);
    }
  }

  /** A flow is in exactly one of `n` windows that follow each other if it is in their span, else in none. */
  lemma {:induction false} InExactlyOneWindow(f: Item, start: int, seconds: nat, n: nat)
    ensures InWindow(start, start + n * seconds)(f) <==> exists k :: 0 <= k < n && InNth(f, start, seconds, k)
    ensures forall k, l :: InNth(f, start, seconds, k) && InNth(f, start, seconds, l) ==> k == l
  {
    forall k, l | InNth(f, start, seconds, k) && InNth(f, start, seconds, l)
      ensures k == l
    {
      InOneWindowOnly(f, start, seconds, k, l);
    }
    if n > 0 {
      InExactlyOneWindow(f, start, seconds, n - 1);
      OneLess(n, seconds);
      assert InWindow(start, start + n * seconds)(f) <==> InWindow(start, start + (n - 1) * seconds)(f) || InNth(f, start, seconds, n - 1);
    }
  }

  lemma {:induction false} MultiplyGrows(a: int, b: int, n: nat)
    requires a <= b
    ensures a * n <= b * n
  {
  }

  // ---------------------------------------------------------------- what a cycle reads

  /** `run_once` summarises the active file only. */
  function RunOnce(private: Privacy, files: Store.Files<Item>, macs: seq<Option<string>>, end: int, seconds: int): seq<Record> {
    var (from, to) := WindowBounds(end, seconds);
    RecordsOf(private, KnownMacs(macs), Filter(InWindow(from, to), Store.ActiveRecords(files)), from, to)
  }

  function RunOverLog(private: Privacy, files: Store.Files<Item>, macs: seq<Option<string>>, end: int, seconds: int): seq<Record> {
    var (from, to) := WindowBounds(end, seconds);
    RecordsOf(private, KnownMacs(macs), Filter(InWindow(from, to), Store.Log(files)), from, to)
  }

  predicate NoneOf(flows: seq<Item>, mac: string) { forall f :: f in flows ==> Ends(f, mac) == 0 }

  /** No rotated flow of the window has a known device at an end. */
  ghost predicate NothingRotatedAway(files: Store.Files<Item>, known: seq<string>, from: int, to: int) {
    forall m :: m in known ==> NoneOf(Filter(InWindow(from, to), Store.ReadFrom(files.rotated, 1)), m)
  }

  lemma {:induction false} NoEndsNoFlows(private: Privacy, mac: string, flows: seq<Item>)
    ensures SummaryOf(private, mac, flows).flows == 0 <==> NoneOf(flows, mac)
  {
    if flows != [] {
      var n := |flows| - 1;
      NoEndsNoFlows(private, mac, flows[..n]);
      AddedTimesShape(private, SummaryOf(private, mac, flows[..n]), flows[n], mac, Ends(flows[n], mac));
      assert flows == flows[..n] + [flows[n]];
    }
  }

  lemma {:induction false} SummaryOfLog(private: Privacy, mac: string, files: Store.Files<Item>, from: int, to: int)
    ensures var rotated := Filter(InWindow(from, to), Store.ReadFrom(files.rotated, 1));
            var active := Filter(InWindow(from, to), Store.ActiveRecords(files));
            SummaryOf(private, mac, Filter(InWindow(from, to), Store.Log(files)))
            == Plus(SummaryOf(private, mac, rotated), SummaryOf(private, mac, active))
  {
    FilterAppend(InWindow(from, to), Store.ReadFrom(files.rotated, 1), Store.ActiveRecords(files));
    SummariesAddUp(private, mac, Filter(InWindow(from, to), Store.ReadFrom(files.rotated, 1)),
                   Filter(InWindow(from, to), Store.ActiveRecords(files)));
  }

  /** A cycle reports what the whole log says exactly when no flow of a known device in the window was rotated away. */
  lemma {:induction false} ActiveFileSufficesExactly(private: Privacy, files: Store.Files<Item>, macs: seq<Option<string>>, end: int, seconds: int)
    ensures RunOnce(private, files, macs, end, seconds) == RunOverLog(private, files, macs, end, seconds)
            <==> NothingRotatedAway(files, KnownMacs(macs), end - seconds, end)
  {
    var from, known := end - seconds, KnownMacs(macs);
    var rotated := Filter(InWindow(from, end), Store.ReadFrom(files.rotated, 1));
    var active, log := Filter(InWindow(from, end), Store.ActiveRecords(files)), Filter(InWindow(from, end), Store.Log(files));
    RecordsAt(private, known, active, from, end);
    RecordsAt(private, known, log, from, end);
    var once, whole := RecordsOf(private, known, active, from, end), RecordsOf(private, known, log, from, end);
    forall i | 0 <= i < |known|
      ensures once[i] == whole[i] <==> NoneOf(rotated, known[i])
    {
      SameRecordExactly(private, known[i], files, from, end);
    }
    if once == whole {
      forall m | m in known
        ensures NoneOf(rotated, m)
      {
        var i :| 0 <= i < |known| && known[i] == m;
        assert once[i] == whole[i];
      }
    } else {
      var i :| 0 <= i < |known| && once[i] != whole[i];
      assert known[i] in known;
    }
  }

  lemma {:induction false} PlusChangesExactly(a: Summary, b: Summary)
    requires a.flows == 0 ==> a == EMPTY
    ensures Plus(a, b) == b <==> a.flows == 0
  {
    if a.flows == 0 {
      PlusLaws(b, EMPTY, EMPTY);
    }
  }

  lemma {:induction false} RecordTellsSummary(private: Privacy, mac: string, flows: seq<Item>, start: int, end: int)
    ensures RecordOf(private, mac, flows, start, end) == ToRecord(SummaryOf(private, mac, flows), mac, start, end)
  {
    NoFlowsMeansEmpty(private, mac, flows);
  }

  lemma {:induction false} SameRecordExactly(private: Privacy, mac: string, files: Store.Files<Item>, from: int, to: int)
    ensures RecordOf(private, mac, Filter(InWindow(from, to), Store.ActiveRecords(files)), from, to)
         == RecordOf(private, mac, Filter(InWindow(from, to), Store.Log(files)), from, to)
         <==> NoneOf(Filter(InWindow(from, to), Store.ReadFrom(files.rotated, 1)), mac)
  {
    var rotated := Filter(InWindow(from, to), Store.ReadFrom(files.rotated, 1));
    var active, log := Filter(InWindow(from, to), Store.ActiveRecords(files)), Filter(InWindow(from, to), Store.Log(files));
    RecordTellsSummary(private, mac, active, from, to);
    RecordTellsSummary(private, mac, log, from, to);
    SummaryOfLog(private, mac, files, from, to);
    NoEndsNoFlows(private, mac, rotated);
    NoFlowsMeansEmpty(private, mac, rotated);
    PlusChangesExactly(SummaryOf(private, mac, rotated), SummaryOf(private, mac, active));
  }

  /** For example any flow of the window that was rotated away before the cycle ran. */
  lemma {:induction false} RotatedFlowIsMissed(private: Privacy, f: Item, mac: string, end: int, seconds: int)
    requires InWindow(end - seconds, end)(f) && f.srcMac == Some(mac)
    ensures var files: Store.Files<Item> := Store.Files(None, map[1 := [f]]);
            RunOnce(private, files, [Some(mac)], end, seconds) != RunOverLog(private, files, [Some(mac)], end, seconds)
  {
    var files: Store.Files<Item> := Store.Files(None, map[1 := [f]]);
    var macs, from := [Some(mac)], end - seconds;
    assert 2 !in files.rotated;
    assert Store.ReadFrom(files.rotated, 1) == [f] + Store.ReadFrom(files.rotated, 2) == [f];
    assert [f][1..] == [];
    assert Filter(InWindow(from, end), [f]) == [f];
    KnownMacsAreDistinctAndSorted(macs);
    assert macs[0].Some? && IsKnown(macs, Lower(mac));
    assert f in [f] && Ends(f, Lower(mac)) > 0;
    assert !NoneOf([f], Lower(mac));
    assert !NothingRotatedAway(files, KnownMacs(macs), from, end);
    ActiveFileSufficesExactly(private, files, macs, end, seconds);
  }
}
