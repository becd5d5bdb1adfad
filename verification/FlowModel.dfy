/** Packets, direction-free flow keys and the accumulator of one flow. */
module FlowModel {
  import opened Prelude
  import opened Text

  /** A normalised packet observation; absent fields are None, an absent length is 0, absent flags are "". */
  datatype Obs = Obs(
    timestamp: Option<string>,
    srcMac: Option<string>, dstMac: Option<string>,
    srcIp: Option<string>, dstIp: Option<string>,
    srcPort: Option<int>, dstPort: Option<int>,
    protocol: Option<string>, direction: string,
    length: nat, tcpFlags: string)

  datatype Endpoint = Endpoint(ip: Option<string>, port: Option<int>)

  datatype Key = Key(protocol: string, low: Endpoint, high: Endpoint)

  function OrElse(text: Option<string>, default: string): string {
    if text.Some? && text.value != "" then text.value else default
  }

  // ---------------------------------------------------------------- the key

  /** Tuple comparison: the first differing components decide, and a missing one cannot be compared (None: TypeError). */
  function EndpointLe(a: Endpoint, b: Endpoint): Option<bool> {
    if a.ip != b.ip then
      if a.ip.Some? && b.ip.Some? then Some(StringLe(a.ip.value, b.ip.value)) else None
    else if a.port != b.port then
      if a.port.Some? && b.port.Some? then Some(a.port.value <= b.port.value) else None
    else Some(true)
  }

  function Source(o: Obs): Endpoint { Endpoint(o.srcIp, o.srcPort) }

  function Target(o: Obs): Endpoint { Endpoint(o.dstIp, o.dstPort) }

  function Protocol(o: Obs): string { OrElse(o.protocol, "UNKNOWN") }

  function KeyOf(protocol: string, a: Endpoint, b: Endpoint): Option<Key> {
    match EndpointLe(a, b)
    case None => None
    case Some(le) => Some(if le then Key(protocol, a, b) else Key(protocol, b, a))
  }

  /** `_flow_key`; None when the comparison of the two ends raises. */
  function FlowKey(o: Obs): Option<Key> { KeyOf(Protocol(o), Source(o), Target(o)) }

  lemma {:induction false} EndpointOrder(a: Endpoint, b: Endpoint)
    ensures EndpointLe(a, b).None? <==> EndpointLe(b, a).None?
    ensures EndpointLe(a, b) == Some(false) ==> EndpointLe(b, a) == Some(true)
    ensures EndpointLe(a, b) == Some(true) && EndpointLe(b, a) == Some(true) ==> a == b
  {
    if a.ip != b.ip && a.ip.Some? && b.ip.Some? {
      StringLeTotal(a.ip.value, b.ip.value);
      if StringLe(a.ip.value, b.ip.value) && StringLe(b.ip.value, a.ip.value) {
        StringLeAntisymmetric(a.ip.value, b.ip.value);
      }
    }
  }

  /**
   Two packets share a key exactly when they have the same protocol and the same two ends in either direction;
   the only packets without a key are those whose first differing components include a missing one.
   */
  lemma {:induction false} KeyIsDirectionFree(p: Obs, q: Obs)
    requires FlowKey(p).Some?
    ensures FlowKey(p) == FlowKey(q) <==>
            Protocol(p) == Protocol(q)
            && ((Source(p) == Source(q) && Target(p) == Target(q)) || (Source(p) == Target(q) && Target(p) == Source(q)))
    ensures FlowKey(p) == FlowKey(p.(srcIp := p.dstIp, dstIp := p.srcIp, srcPort := p.dstPort, dstPort := p.srcPort))
  {
    EndpointOrder(Source(p), Target(p));
    EndpointOrder(Source(q), Target(q));
    var r := p.(srcIp := p.dstIp, dstIp := p.srcIp, srcPort := p.dstPort, dstPort := p.srcPort);
    EndpointOrder(Source(r), Target(r));
    assert Source(r) == Target(p) && Target(r) == Source(p);
  }

  /** A packet has no key exactly if the addresses, or else the ports, of its two ends differ and one of them is missing. */
  lemma {:induction false} KeyIsMissingExactly(p: Obs)
    ensures FlowKey(p).None? <==>
            || (p.srcIp != p.dstIp && (p.srcIp.None? || p.dstIp.None?))
            || (p.srcIp == p.dstIp && p.srcPort != p.dstPort && (p.srcPort.None? || p.dstPort.None?))
  {
  }

  /** The key names the protocol, "UNKNOWN" if the packet has none, and the packet's two ends. */
  lemma {:induction false} KeyNamesThePacket(p: Obs)
    requires FlowKey(p).Some?
    ensures var k := FlowKey(p).value;
            && k.protocol == (if p.protocol.None? || p.protocol.value == "" then "UNKNOWN" else p.protocol.value)
            && multiset{k.low, k.high} == multiset{Endpoint(p.srcIp, p.srcPort), Endpoint(p.dstIp, p.dstPort)}
  {
  }

  // ---------------------------------------------------------------- the accumulator

  function PortLabel(port: Option<int>): Option<string> {
    if port == Some(80) then Some("HTTP")
    else if port == Some(443) then Some("HTTPS")
    else if port == Some(53) then Some("DNS")
    else if port == Some(67) || port == Some(68) then Some("DHCP")
    else if port == Some(5353) then Some("MDNS")
    else if port == Some(5355) then Some("LLMNR")
    else if port == Some(137) then Some("NBNS")
    else if port == Some(1900) then Some("SSDP")
    else None
  }

  function ApplicationProtocol(o: Obs): Option<string> {
    if o.protocol.Some? && o.protocol.value != "" && Upper(o.protocol.value) !in ["TCP", "UDP", "IP", "UNKNOWN"]
    then Some(Upper(o.protocol.value))
    else if PortLabel(o.srcPort).Some? then PortLabel(o.srcPort)
    else PortLabel(o.dstPort)
  }

  /** The services that are told by a port, each with its ports. */
  const SERVICES: seq<(string, set<int>)> := [
    ("HTTP", {80}), ("HTTPS", {443}), ("DNS", {53}), ("DHCP", {67, 68}), ("MDNS", {5353}), ("LLMNR", {5355}), ("NBNS", {137}), ("SSDP", {1900})]

  ghost predicate IsServiceOf(service: string, port: Option<int>) {
    port.Some? && exists i :: 0 <= i < |SERVICES| && SERVICES[i].0 == service && port.value in SERVICES[i].1
  }

  ghost predicate HasNoService(port: Option<int>) { forall service :: !IsServiceOf(service, port) }

  /** A protocol of its own, in upper case, beats the ports, and the source port beats the destination port. */
  ghost predicate ApplicationTells(o: Obs, application: Option<string>) {
    if o.protocol.Some? && o.protocol.value != "" && Upper(o.protocol.value) !in {"TCP", "UDP", "IP", "UNKNOWN"}
    then application == Some(Upper(o.protocol.value))
    else if !HasNoService(o.srcPort) then application.Some? && IsServiceOf(application.value, o.srcPort)
    else if !HasNoService(o.dstPort) then application.Some? && IsServiceOf(application.value, o.dstPort)
    else application == None
  }

  lemma {:induction false} PortLabelTells(port: Option<int>)
    ensures match PortLabel(port) case Some(service) => service != "" && IsServiceOf(service, port) case None => HasNoService(port)
  {
    match PortLabel(port)
    case Some(service) =>
      var i := if service == "HTTP" then 0 else if service == "HTTPS" then 1 else if service == "DNS" then 2 else if service == "DHCP" then 3
               else if service == "MDNS" then 4 else if service == "LLMNR" then 5 else if service == "NBNS" then 6 else 7;
      assert SERVICES[i].0 == service && port.value in SERVICES[i].1;
    case None =>
  }

  lemma {:induction false} ApplicationIsTold(o: Obs)
    ensures ApplicationTells(o, ApplicationProtocol(o))
    ensures ApplicationProtocol(o) != Some("")
  {
    PortLabelTells(o.srcPort);
    PortLabelTells(o.dstPort);
  }

  /** The fields `_ActiveFlow` takes from the first packet and keeps. */
  datatype Identity = Identity(
    srcMac: Option<string>, dstMac: Option<string>,
    srcIp: Option<string>, dstIp: Option<string>,
    srcPort: Option<int>, dstPort: Option<int>,
    protocol: string, direction: string)

  /** First and last timestamp texts, "" while none was seen. */
  datatype Seen = Seen(first: string, last: string)

  datatype Sizes = Sizes(packets: nat, bytes: nat, min: Option<nat>, max: Option<nat>)

  datatype Flags = Flags(syn: nat, fin: nat, rst: nat)

  datatype Sides = Sides(inPackets: nat, outPackets: nat, inBytes: nat, outBytes: nat)

  /** The arrival of the latest packet on the monotonic clock, and the gaps between successive packets. */
  datatype Gaps = Gaps(lastAt: int, sum: int, count: nat)

  /** The accumulator `_ActiveFlow`. */
  datatype Flow = Flow(
    id: Identity, seen: Seen, sizes: Sizes, flags: Flags, sides: Sides, gaps: Gaps, application: Option<string>)

  function Timestamp(o: Obs): string { OrElse(o.timestamp, "") }

  function IdentityOf(o: Obs): Identity {
    Identity(o.srcMac, o.dstMac, o.srcIp, o.dstIp, o.srcPort, o.dstPort, Protocol(o), o.direction)
  }

  function NewFlow(o: Obs, now: int): Flow {
    Flow(IdentityOf(o), Seen(Timestamp(o), Timestamp(o)), Sizes(0, 0, None, None), Flags(0, 0, 0), Sides(0, 0, 0, 0),
         Gaps(now, 0, 0), ApplicationProtocol(o))
  }

  function Tick(b: bool): nat { if b then 1 else 0 }

  function SeenAfter(s: Seen, o: Obs): Seen {
    if Timestamp(o) == "" then s else Seen(if s.first == "" then Timestamp(o) else s.first, Timestamp(o))
  }

  function SizesAfter(s: Sizes, o: Obs): Sizes {
    Sizes(s.packets + 1, s.bytes + o.length,
          Some(if s.min.None? || o.length < s.min.value then o.length else s.min.value),
          Some(if s.max.None? || o.length > s.max.value then o.length else s.max.value))
  }

  function FlagsAfter(f: Flags, o: Obs): Flags {
    Flags(f.syn + Tick('S' in o.tcpFlags), f.fin + Tick('F' in o.tcpFlags), f.rst + Tick('R' in o.tcpFlags))
  }

  function SidesAfter(s: Sides, o: Obs): Sides {
    if o.direction == "outbound" then s.(outPackets := s.outPackets + 1, outBytes := s.outBytes + o.length)
    else if o.direction == "inbound" then s.(inPackets := s.inPackets + 1, inBytes := s.inBytes + o.length)
    else s
  }

  /** `counted` is the number of packets before this one. */
  function GapsAfter(g: Gaps, counted: nat, now: int): Gaps {
    if counted > 0 && now - g.lastAt >= 0 then Gaps(now, g.sum + (now - g.lastAt), g.count + 1)
    else g.(lastAt := now)
  }

  function ApplicationAfter(a: Option<string>, o: Obs): Option<string> {
    if a == None || a == Some("") then ApplicationProtocol(o) else a
  }

  function Updated(f: Flow, o: Obs, now: int): Flow {
    Flow(f.id, SeenAfter(f.seen, o), SizesAfter(f.sizes, o), FlagsAfter(f.flags, o), SidesAfter(f.sides, o),
         GapsAfter(f.gaps, f.sizes.packets, now), ApplicationAfter(f.application, o))
  }

  /** The finalised record; averages are kept as their sums and counts, before rounding. */
  datatype Record = Record(flow: Flow, firstSeen: string, lastSeen: string, minSize: nat, maxSize: nat)

  /** `wall` is the text of the current time, used when no packet of the flow carried a timestamp. */
  function ToRecord(f: Flow, wall: string): Record {
    var first := if f.seen.first != "" then f.seen.first else wall;
    Record(f, first, if f.seen.last != "" then f.seen.last else first,
           if f.sizes.min.Some? then f.sizes.min.value else 0, if f.sizes.max.Some? then f.sizes.max.value else 0)
  }

  // ---------------------------------------------------------------- the table of active flows

  /** What happens to an aggregator, in the order of its lock. */
  datatype Event =
    | Packet(obs: Obs, now: int)
    | Sweep(now: int, wall: string)
    | Flush(now: int, wall: string)

  datatype Entry<+F> = Entry(key: Key, flow: F)

  /** An insertion-ordered dictionary. */
  type Table<+F> = seq<Entry<F>>

  function Find<F>(table: Table<F>, k: Key): (i: nat)
    ensures i <= |table|
    ensures i < |table| ==> table[i].key == k
    ensures forall j :: 0 <= j < i ==> table[j].key != k
  {
    if table == [] || table[0].key == k then 0 else 1 + Find(table[1..], k)
  }

  /** Apply `change` to the entry of `k`, or append `created` for it. */
  function Upsert<F>(table: Table<F>, k: Key, created: F, change: F -> F): Table<F> {
    if table == [] then [Entry(k, created)]
    else if table[0].key == k then [Entry(k, change(table[0].flow))] + table[1..]
    else [table[0]] + Upsert(table[1..], k, created, change)
  }

  lemma {:induction false} UpsertAtIndex<F>(table: Table<F>, k: Key, created: F, change: F -> F)
    ensures var i := Find(table, k);
            Upsert(table, k, created, change) ==
            if i < |table| then table[i := Entry(k, change(table[i].flow))] else table + [Entry(k, created)]
  {
    if table != [] && table[0].key != k {
      UpsertAtIndex(table[1..], k, created, change);
    }
  }

  function Recorded(table: Table<Flow>, o: Obs, now: int): Table<Flow> {
    match FlowKey(o)
    case None => table
    case Some(k) => Upsert(table, k, Updated(NewFlow(o, now), o, now), f => Updated(f, o, now))
  }

  lemma {:induction false} RecordedAtIndex(table: Table<Flow>, o: Obs, now: int)
    requires FlowKey(o).Some?
    ensures var k := FlowKey(o).value;
            var i := Find(table, k);
            Recorded(table, o, now) ==
            if i < |table| then table[i := Entry(k, Updated(table[i].flow, o, now))]
            else table + [Entry(k, Updated(NewFlow(o, now), o, now))]
  {
    UpsertAtIndex(table, FlowKey(o).value, Updated(NewFlow(o, now), o, now), f => Updated(f, o, now));
  }

  predicate Idle(f: Flow, now: int, timeout: int) { now - f.gaps.lastAt >= timeout }

  function BusyPart(timeout: int, now: int, table: Table<Flow>): Table<Flow> {
    Filter((x: Entry<Flow>) => !Idle(x.flow, now, timeout), table)
  }

  function IdleRecords(timeout: int, now: int, wall: string, table: Table<Flow>): seq<Record> {
    Map((x: Entry<Flow>) => ToRecord(x.flow, wall), Filter((x: Entry<Flow>) => Idle(x.flow, now, timeout), table))
  }

  lemma {:induction false} SweepSnoc(timeout: int, now: int, wall: string, table: Table<Flow>, x: Entry<Flow>)
    ensures BusyPart(timeout, now, table + [x]) ==
            if Idle(x.flow, now, timeout) then BusyPart(timeout, now, table) else BusyPart(timeout, now, table) + [x]
    ensures IdleRecords(timeout, now, wall, table + [x]) ==
            if Idle(x.flow, now, timeout) then IdleRecords(timeout, now, wall, table) + [ToRecord(x.flow, wall)]
            else IdleRecords(timeout, now, wall, table)
  {
    FilterSnoc((x: Entry<Flow>) => !Idle(x.flow, now, timeout), table, x);
    FilterSnoc((x: Entry<Flow>) => Idle(x.flow, now, timeout), table, x);
    MapAppend((x: Entry<Flow>) => ToRecord(x.flow, wall), Filter((x: Entry<Flow>) => Idle(x.flow, now, timeout), table), [x]);
  }

  function Aggregated(timeout: int, table: Table<Flow>, e: Event): (Table<Flow>, seq<Record>) {
    match e
    case Packet(o, now) => (Recorded(table, o, now), [])
    case Sweep(now, wall) => (BusyPart(timeout, now, table), IdleRecords(timeout, now, wall, table))
    case Flush(now, wall) => ([], Map((x: Entry<Flow>) => ToRecord(x.flow, wall), table))
  }

  /** The records whose append succeeds; `appends(i)` is the outcome of the `i`-th. */
  function Persisted(records: seq<Record>, appends: nat -> bool): seq<Record> {
    if records == [] then []
    else
      var n := |records| - 1;
      Persisted(records[..n], appends) + (if appends(n) then [records[n]] else [])
  }

  /** A finalised flow whose append fails is lost: all records are stored exactly if every append succeeds. */
  lemma {:induction false} PersistedExactly(records: seq<Record>, appends: nat -> bool)
    ensures |Persisted(records, appends)| <= |records|
    ensures Persisted(records, appends) == records <==> forall i :: 0 <= i < |records| ==> appends(i)
  {
    if records != [] {
      var n := |records| - 1;
      PersistedExactly(records[..n], appends);
      assert records == records[..n] + [records[n]];
    }
  }

  /** The active flows and the finalised records after a schedule of events. */
  function Aggregate(timeout: int, events: seq<Event>): (Table<Flow>, seq<Record>)
    decreases |events|
  {
    if events == [] then ([], [])
    else
      var (table, records) := Aggregate(timeout, events[..|events| - 1]);
      var (table', more) := Aggregated(timeout, table, events[|events| - 1]);
      (table', records + more)
  }

  lemma {:induction false} AggregateSnoc(timeout: int, events: seq<Event>, e: Event)
    ensures var (table, records) := Aggregate(timeout, events);
            var (table', more) := Aggregated(timeout, table, e);
            Aggregate(timeout, events + [e]) == (table', records + more)
  {
    assert (events + [e])[..|events|] == events;
  }
}
