/** The buffered packet store with one file a day. */
module PacketStorage {
  import opened Prelude
  import opened Text

  /** An observation: its time text, if it has one, its protocol text, and the rest of it. */
  datatype Packet = Packet(timestamp: Option<string>, protocol: Option<string>, body: string)

  /** A packet together with the day it was filed under. */
  datatype Item = Item(date: string, packet: Packet)

  /** A daily file: its packets and the count written with them, or something that is no such file. */
  datatype File = Daily(packets: seq<Item>, count: nat) | Unreadable

  /** `_get_packet_date_str`: the date part of a well-shaped timestamp, else today. */
  function DateOf(p: Packet, today: string): string {
    if p.timestamp.Some? && |p.timestamp.value| >= 10 && p.timestamp.value[4] == '-' && p.timestamp.value[7] == '-'
    then p.timestamp.value[..10] else today
  }

  const NAMED: seq<string> := ["tcp", "udp", "icmp", "arp", "dhcp", "dns", "mdns", "llmnr", "nbns", "ssdp", "tls"]

  /** Which of the twelve counters a packet counts under; the last one is for all others. */
  function CounterOf(p: Packet): (i: nat)
    ensures i < 12
  {
    var name := if p.protocol.Some? && p.protocol.value != "" then Lower(p.protocol.value) else "other";
    IndexOf(NAMED, name)
  }

  function IndexOf(names: seq<string>, name: string): (i: nat)
    ensures i <= |names| && (i < |names| ==> names[i] == name)
    ensures name in names[..i] ==> i == 0
  {
    if names == [] || names[0] == name then 0 else 1 + IndexOf(names[1..], name)
  }

  function Sum(ns: seq<nat>): nat { if ns == [] then 0 else ns[0] + Sum(ns[1..]) }

  lemma {:induction false} SumOfIncremented(ns: seq<nat>, i: nat)
    requires i < |ns|
    ensures Sum(ns[i := ns[i] + 1]) == Sum(ns) + 1
  {
    if i > 0 {
      SumOfIncremented(ns[1..], i - 1);
      assert ns[i := ns[i] + 1][1..] == ns[1..][i - 1 := ns[i] + 1];
    } else {
      assert ns[0 := ns[0] + 1][1..] == ns[1..];
    }
  }

  type Files = map<string, File>

  datatype Stats = Stats(observed: nat, stored: nat, counts: seq<nat>)

  /**
   * `kept` lists every item that was taken and not lost, in order of arrival; `lost` counts the others. Both only
   * serve the specification.
   */
  datatype State = State(files: Files, buffer: seq<Item>, current: Option<string>, stats: Stats, kept: seq<Item>, lost: nat)

  /** The packets a reader of the file of that day gets. */
  function Content(files: Files, date: string): seq<Item> {
    if date in files && files[date].Daily? then files[date].packets else []
  }

  /** `_flush_locked`: the buffer is cleared, then its items are written behind those of the day's file, or lost. */
  function Flushed(s: State, today: string, written: bool): State {
    if s.buffer == [] then s
    else if !written then
      s.(buffer := [], kept := s.kept[..Max(|s.kept| - |s.buffer|, 0)], lost := s.lost + |s.buffer|)
    else
      var date := if s.current.Some? then s.current.value else today;
      var packets := Content(s.files, date) + s.buffer;
      s.(buffer := [], files := s.files[date := Daily(packets, |packets|)],
         stats := s.stats.(stored := s.stats.stored + |s.buffer|))
  }

  function Counted(s: State, p: Packet): State {
    if |s.stats.counts| != 12 then s
    else s.(stats := s.stats.(observed := s.stats.observed + 1,
                              counts := s.stats.counts[CounterOf(p) := s.stats.counts[CounterOf(p)] + 1]))
  }

  function Buffered(s: State, item: Item): State {
    s.(current := Some(item.date), buffer := s.buffer + [item], kept := s.kept + [item])
  }

  /** What goes along with one call: the day, whether the flush interval is over, whether writes succeed. */
  datatype Call = Call(today: string, due: bool, firstWrite: bool, secondWrite: bool)

  predicate DateChanges(s: State, p: Packet, c: Call) { s.current.Some? && s.current.value != DateOf(p, c.today) }

  /** The packet joins the buffer, which is flushed when it is full or the interval is over. */
  function Filed(threshold: int, s: State, item: Item, c: Call): State {
    var s' := Buffered(s, item);
    if |s'.buffer| >= threshold || c.due then Flushed(s', c.today, c.secondWrite) else s'
  }

  /** `record_observation`; when the flush at a change of date raises, the packet is not taken either. */
  function Recorded(threshold: int, s: State, p: Packet, c: Call): State {
    var s1 := Counted(s, p);
    if DateChanges(s, p, c) && s.buffer != [] && !c.firstWrite then
      var s2 := Flushed(s1, c.today, false);
      s2.(lost := s2.lost + 1)
    else
      Filed(threshold, if DateChanges(s, p, c) then Flushed(s1, c.today, true) else s1, Item(DateOf(p, c.today), p), c)
  }

  predicate Full(threshold: int, s: State, c: Call) { |s.buffer| + 1 >= threshold || c.due }

  /** The call ends with the error of a write that failed. */
  predicate Raises(threshold: int, s: State, p: Packet, c: Call) {
    if DateChanges(s, p, c) && s.buffer != [] then
      !c.firstWrite || ((1 >= threshold || c.due) && !c.secondWrite)
    else Full(threshold, s, c) && !c.secondWrite
  }

  // ---------------------------------------------------------------- the invariant

  function OnDate(date: string): Item -> bool { (item: Item) => item.date == date }

  function BufferOn(s: State, date: string): seq<Item> { if s.current == Some(date) then s.buffer else [] }

  /** Buffered items share the current date and are the last ones that were kept. */
  ghost predicate GoodBuffer(s: State) {
    && (s.buffer != [] ==> s.current.Some?)
    && (forall i :: 0 <= i < |s.buffer| ==> s.buffer[i].date == s.current.value)
    && |s.buffer| <= |s.kept| && s.kept[|s.kept| - |s.buffer|..] == s.buffer
  }

  ghost predicate PartitionedOn(found: Files, s: State, date: string) {
    Content(s.files, date) + BufferOn(s, date) == Content(found, date) + Filter(OnDate(date), s.kept)
  }

  /** For every date, the file followed by what is buffered for it is what it held at first and the items kept since, in order. */
  ghost predicate Partitioned(found: Files, s: State) {
    forall date :: PartitionedOn(found, s, date)
  }

  ghost predicate GoodStats(s: State) {
    && |s.stats.counts| == 12 && Sum(s.stats.counts) == s.stats.observed
    && s.stats.observed == s.stats.stored + |s.buffer| + s.lost && s.stats.observed == |s.kept| + s.lost
  }

  ghost predicate GoodCounts(found: Files, s: State) {
    forall date :: date in s.files ==>
      (date in found && s.files[date] == found[date]) || (s.files[date].Daily? && s.files[date].count == |s.files[date].packets|)
  }

  ghost predicate Inv(found: Files, s: State) {
    GoodBuffer(s) && Partitioned(found, s) && GoodStats(s) && GoodCounts(found, s)
  }

  function Initial(found: Files): State { State(found, [], None, Stats(0, 0, seq(12, i => 0)), [], 0) }

  lemma {:induction false} InitialInv(found: Files)
    ensures Inv(found, Initial(found))
  {
    assert Sum(seq(12, i => 0)) == 0 by {
      SumOfZeros(12);
    }
  }

  lemma {:induction false} SumOfZeros(n: nat)
    ensures Sum(seq(n, i => 0)) == 0
  {
    if n > 0 {
      assert seq(n, i => 0)[1..] == seq(n - 1, i => 0);
      SumOfZeros(n - 1);
    }
  }

  lemma {:induction false} BufferIsOnItsDate(s: State, date: string)
    requires GoodBuffer(s)
    ensures Filter(OnDate(date), s.buffer) == BufferOn(s, date)
  {
    if s.current == Some(date) {
      forall x | x in s.buffer
        ensures OnDate(date)(x)
      {
      }
      FilterAll(OnDate(date), s.buffer);
    } else {
      forall x | x in s.buffer
        ensures !OnDate(date)(x)
      {
      }
      FilterNone(OnDate(date), s.buffer);
    }
  }

  lemma {:induction false} SameTail<T>(a: seq<T>, b: seq<T>, tail: seq<T>)
    requires a + tail == b + tail
    ensures a == b
  {
    assert |a| == |b|;
    assert (a + tail)[..|a|] == a && (b + tail)[..|b|] == b;
  }

  /** Losing the buffer removes exactly its items from what was kept. */
  lemma {:induction false} LosingKeepsPartition(found: Files, s: State, today: string, date: string)
    requires GoodBuffer(s) && PartitionedOn(found, s, date)
    ensures PartitionedOn(found, Flushed(s, today, false), date)
  {
    if s.buffer != [] {
      var front := s.kept[..|s.kept| - |s.buffer|];
      assert s.kept == front + s.buffer;
      FilterAppend(OnDate(date), front, s.buffer);
      BufferIsOnItsDate(s, date);
      Associates(Content(found, date), Filter(OnDate(date), front), BufferOn(s, date));
      SameTail(Content(s.files, date), Content(found, date) + Filter(OnDate(date), front), BufferOn(s, date));
      var s' := Flushed(s, today, false);
      assert BufferOn(s', date) == [] && s'.kept == front && s'.files == s.files;
      assert Content(s.files, date) + [] == Content(s.files, date);
    }
  }

  lemma {:induction false} WritingKeepsPartition(found: Files, s: State, today: string, date: string)
    requires GoodBuffer(s) && PartitionedOn(found, s, date)
    ensures PartitionedOn(found, Flushed(s, today, true), date)
  {
    var s' := Flushed(s, today, true);
    assert s.buffer != [] ==> Content(s'.files, date) == Content(s.files, date) + BufferOn(s, date) && BufferOn(s', date) == [];
  }

  lemma {:induction false} FlushKeepsInv(found: Files, s: State, today: string, written: bool)
    requires Inv(found, s)
    ensures Inv(found, Flushed(s, today, written)) && Flushed(s, today, written).buffer == []
  {
    forall date
      ensures PartitionedOn(found, Flushed(s, today, written), date)
    {
      assert PartitionedOn(found, s, date);
      if written {
        WritingKeepsPartition(found, s, today, date);
      } else {
        LosingKeepsPartition(found, s, today, date);
      }
    }
  }

  /** Taking a packet of the buffer's date, or of any date while the buffer is empty. */
  lemma {:induction false} BufferingKeepsPartition(found: Files, s: State, item: Item, date: string)
    requires GoodBuffer(s) && PartitionedOn(found, s, date) && (s.buffer != [] ==> s.current == Some(item.date))
    ensures PartitionedOn(found, Buffered(s, item), date)
  {
    var s' := Buffered(s, item);
    FilterSnoc(OnDate(date), s.kept, item);
    if date == item.date {
      assert BufferOn(s', date) == BufferOn(s, date) + [item];
      Associates(Content(s.files, date), BufferOn(s, date), [item]);
      Associates(Content(found, date), Filter(OnDate(date), s.kept), [item]);
    } else {
      assert BufferOn(s, date) == [] && BufferOn(s', date) == [];
    }
  }

  lemma {:induction false} BufferingKeeps(found: Files, s: State, item: Item)
    requires GoodBuffer(s) && Partitioned(found, s) && (s.buffer != [] ==> s.current == Some(item.date))
    ensures GoodBuffer(Buffered(s, item)) && Partitioned(found, Buffered(s, item))
  {
    forall date
      ensures PartitionedOn(found, Buffered(s, item), date)
    {
      assert PartitionedOn(found, s, date);
      BufferingKeepsPartition(found, s, item, date);
    }
  }

  /** A packet on its way is counted but not yet filed: one more item is accounted for as lost for the moment. */
  function OnItsWay(s: State, p: Packet): State { Counted(s, p).(lost := s.lost + 1) }

  lemma {:induction false} CountingKeepsInv(found: Files, s: State, p: Packet)
    requires Inv(found, s)
    ensures Inv(found, OnItsWay(s, p))
  {
    SumOfIncremented(s.stats.counts, CounterOf(p));
    var s' := OnItsWay(s, p);
    forall date
      ensures PartitionedOn(found, s', date)
    {
      assert PartitionedOn(found, s, date);
    }
  }

  /** The packet is filed after all. */
  lemma {:induction false} FilingKeepsInv(found: Files, s: State, item: Item, s': State)
    requires Inv(found, s) && s.lost > 0 && (s.buffer != [] ==> s.current == Some(item.date))
    requires s' == Buffered(s, item).(lost := s.lost - 1)
    ensures Inv(found, s')
  {
    BufferingKeeps(found, s, item);
    forall date
      ensures PartitionedOn(found, s', date)
    {
      assert PartitionedOn(found, Buffered(s, item), date);
    }
    assert GoodCounts(found, s');
  }

  /** The same for the buffer as it is after a flush at a change of date, `flushed` counting the packet as on its way. */
  lemma {:induction false} FiledKeepsInv(found: Files, threshold: int, s: State, flushed: State, item: Item, c: Call)
    requires Inv(found, flushed) && flushed.lost == s.lost + 1 && s == flushed.(lost := s.lost)
    requires flushed.buffer != [] ==> flushed.current == Some(item.date)
    ensures Inv(found, Filed(threshold, s, item, c))
  {
    var s' := Buffered(s, item);
    FilingKeepsInv(found, flushed, item, s');
    if |s'.buffer| >= threshold || c.due {
      FlushKeepsInv(found, s', c.today, c.secondWrite);
    }
  }

  lemma {:induction false} RecordKeepsInv(found: Files, threshold: int, s: State, p: Packet, c: Call)
    requires Inv(found, s)
    ensures Inv(found, Recorded(threshold, s, p, c))
  {
    var way, counted, item := OnItsWay(s, p), Counted(s, p), Item(DateOf(p, c.today), p);
    CountingKeepsInv(found, s, p);
    if !DateChanges(s, p, c) {
      FiledKeepsInv(found, threshold, counted, way, item, c);
    } else if s.buffer != [] && !c.firstWrite {
      FlushKeepsInv(found, way, c.today, false);
      assert Recorded(threshold, s, p, c) == Flushed(way, c.today, false);
    } else {
      FlushKeepsInv(found, way, c.today, true);
      FiledKeepsInv(found, threshold, Flushed(counted, c.today, true), Flushed(way, c.today, true), item, c);
    }
  }

  // ---------------------------------------------------------------- runs

  datatype Step = Record(packet: Packet, call: Call) | Flush(today: string, written: bool)

  function After(threshold: int, s: State, step: Step): State {
    match step
    case Record(p, c) => Recorded(threshold, s, p, c)
    case Flush(today, written) => Flushed(s, today, written)
  }

  function Run(threshold: int, s: State, steps: seq<Step>): State {
    if steps == [] then s else After(threshold, Run(threshold, s, steps[..|steps| - 1]), steps[|steps| - 1])
  }

  /** The step ends with the error of a write that failed. */
  predicate Fails(threshold: int, s: State, step: Step) {
    match step
    case Record(p, c) => Raises(threshold, s, p, c)
    case Flush(_, written) => s.buffer != [] && !written
  }

  /** No write that is attempted fails; what is never attempted does not matter. */
  predicate NoneFails(threshold: int, found: Files, steps: seq<Step>) {
    forall i :: 0 <= i < |steps| ==> !Fails(threshold, Run(threshold, Initial(found), steps[..i]), steps[i])
  }

  /** The packets in order of arrival, each with the day it belongs to. */
  function Arrived(steps: seq<Step>): seq<Item> {
    if steps == [] then []
    else
      var front, last := Arrived(steps[..|steps| - 1]), steps[|steps| - 1];
      if last.Record? then front + [Item(DateOf(last.packet, last.call.today), last.packet)] else front
  }

  lemma {:induction false} RunKeepsInv(found: Files, threshold: int, steps: seq<Step>)
    ensures Inv(found, Run(threshold, Initial(found), steps))
  {
    if steps == [] {
      InitialInv(found);
    } else {
      var n := |steps| - 1;
      RunKeepsInv(found, threshold, steps[..n]);
      var s := Run(threshold, Initial(found), steps[..n]);
      match steps[n]
      case Record(p, c) => RecordKeepsInv(found, threshold, s, p, c);
      case Flush(today, written) => FlushKeepsInv(found, s, today, written);
    }
  }

  lemma {:induction false} RecordLosesExactly(found: Files, threshold: int, s: State, p: Packet, c: Call)
    requires Inv(found, s)
    ensures var s' := Recorded(threshold, s, p, c);
            if Raises(threshold, s, p, c) then s'.lost > s.lost
            else s'.lost == s.lost && s'.kept == s.kept + [Item(DateOf(p, c.today), p)]
  {
  }

  /** A step loses something exactly if it fails. */
  lemma {:induction false} StepLosesExactly(found: Files, threshold: int, s: State, step: Step)
    requires Inv(found, s)
    ensures var s' := After(threshold, s, step);
            && s'.lost >= s.lost && (s'.lost == s.lost <==> !Fails(threshold, s, step))
            && (!Fails(threshold, s, step) ==>
                  s'.kept == s.kept + if step.Record? then [Item(DateOf(step.packet, step.call.today), step.packet)] else [])
  {
    match step
    case Record(p, c) => RecordLosesExactly(found, threshold, s, p, c);
    case Flush(today, written) =>
  }

  lemma {:induction false} NoneFailsSnoc(threshold: int, found: Files, steps: seq<Step>, step: Step)
    ensures NoneFails(threshold, found, steps + [step])
            <==> NoneFails(threshold, found, steps) && !Fails(threshold, Run(threshold, Initial(found), steps), step)
  {
    var all := steps + [step];
    assert all[..|steps|] == steps && all[|steps|] == step;
    forall i | 0 <= i < |steps|
      ensures all[..i] == steps[..i] && all[i] == steps[i]
    {
    }
  }

  lemma {:induction false} ObservedIsArrived(found: Files, threshold: int, steps: seq<Step>)
    ensures Run(threshold, Initial(found), steps).stats.observed == |Arrived(steps)|
  {
    if steps != [] {
      var n := |steps| - 1;
      ObservedIsArrived(found, threshold, steps[..n]);
      RunKeepsInv(found, threshold, steps[..n]);
      StepCounts(threshold, Run(threshold, Initial(found), steps[..n]), steps[n]);
    }
  }

  ghost predicate LossIsTold(threshold: int, found: Files, steps: seq<Step>, s: State) {
    (s.lost == 0 <==> NoneFails(threshold, found, steps)) && (s.lost == 0 ==> s.kept == Arrived(steps))
  }

  lemma {:induction false} LossIsToldSnoc(threshold: int, found: Files, steps: seq<Step>, step: Step, s: State)
    requires s == Run(threshold, Initial(found), steps) && Inv(found, s) && LossIsTold(threshold, found, steps, s)
    ensures LossIsTold(threshold, found, steps + [step], After(threshold, s, step))
  {
    NoneFailsSnoc(threshold, found, steps, step);
    StepLosesExactly(found, threshold, s, step);
    assert (steps + [step])[..|steps|] == steps;
  }

  lemma {:induction false} RunTellsLoss(found: Files, threshold: int, steps: seq<Step>)
    ensures LossIsTold(threshold, found, steps, Run(threshold, Initial(found), steps))
  {
    if steps != [] {
      var n := |steps| - 1;
      RunTellsLoss(found, threshold, steps[..n]);
      RunKeepsInv(found, threshold, steps[..n]);
      LossIsToldSnoc(threshold, found, steps[..n], steps[n], Run(threshold, Initial(found), steps[..n]));
      assert steps == steps[..n] + [steps[n]];
    }
  }

  /** Over every run, nothing is lost if and only if no attempted write fails; then all packets are kept in order. */
  lemma {:induction false} NothingIsLostExactly(found: Files, threshold: int, steps: seq<Step>)
    ensures var s := Run(threshold, Initial(found), steps);
            && (s.lost == 0 <==> NoneFails(threshold, found, steps))
            && (s.lost == 0 ==> s.kept == Arrived(steps)) && |Arrived(steps)| == |s.kept| + s.lost
  {
    RunTellsLoss(found, threshold, steps);
    ObservedIsArrived(found, threshold, steps);
    RunKeepsInv(found, threshold, steps);
  }

  lemma {:induction false} StepCounts(threshold: int, s: State, step: Step)
    requires |s.stats.counts| == 12
    ensures After(threshold, s, step).stats.observed == s.stats.observed + if step.Record? then 1 else 0
  {
  }

  lemma {:induction false} FilterCount<T>(p: T -> bool, s: seq<T>, x: T)
    requires p(x)
    ensures multiset(Filter(p, s))[x] == multiset(s)[x]
  {
    if s != [] {
      FilterCount(p, s[1..], x);
      assert s == [s[0]] + s[1..];
    }
  }

  lemma {:induction false} SameDaysSameLength(a: seq<Item>, b: seq<Item>)
    requires forall date :: Filter(OnDate(date), a) == Filter(OnDate(date), b)
    ensures |a| == |b|
  {
    forall x: Item
      ensures multiset(a)[x] == multiset(b)[x]
    {
      FilterCount(OnDate(x.date), a, x);
      FilterCount(OnDate(x.date), b, x);
    }
    assert multiset(a) == multiset(b);
    assert |multiset(a)| == |a| && |multiset(b)| == |b|;
  }

  /** The file of the day followed by what is buffered for it is what the file held at first and the day's packets in order. */
  ghost predicate DayHolds(found: Files, s: State, arrived: seq<Item>, date: string) {
    Content(s.files, date) + BufferOn(s, date) == Content(found, date) + Filter(OnDate(date), arrived)
  }

  lemma {:induction false} SameHead<T>(head: seq<T>, a: seq<T>, b: seq<T>)
    requires head + a == head + b
    ensures a == b
  {
    assert (head + a)[|head|..] == a && (head + b)[|head|..] == b;
  }

  /** The first ten characters of a time text with dashes at the places of a date, else the day of the call. */
  predicate BelongsTo(p: Packet, today: string, date: string) {
    match p.timestamp
    case None => date == today
    case Some(text) =>
      if |text| < 10 || text[4] != '-' || text[7] != '-' then date == today else |date| == 10 && forall i :: 0 <= i < 10 ==> date[i] == text[i]
  }

  function Recordings(steps: seq<Step>): seq<Step> { Filter((step: Step) => step.Record?, steps) }

  /** The packets of the run arrive one by one, each under the day it belongs to. */
  lemma {:induction false} ArrivedTells(steps: seq<Step>)
    ensures var arrived, records := Arrived(steps), Recordings(steps);
            && |arrived| == |records|
            && (forall i :: 0 <= i < |records| ==>
                  && records[i].Record? && arrived[i].packet == records[i].packet
                  && BelongsTo(records[i].packet, records[i].call.today, arrived[i].date))
  {
    if steps != [] {
      var n := |steps| - 1;
      ArrivedTells(steps[..n]);
      FilterSnoc((step: Step) => step.Record?, steps[..n], steps[n]);
      assert steps == steps[..n] + [steps[n]];
    }
  }

  /** The packet's protocol in lower case is the one of this counter, or it is none of the eleven and the counter is the last. */
  predicate CountsUnder(p: Packet, i: nat)
    requires i < 12
  {
    var names := ["tcp", "udp", "icmp", "arp", "dhcp", "dns", "mdns", "llmnr", "nbns", "ssdp", "tls"];
    var name := if p.protocol.None? then "" else Lower(p.protocol.value);
    if i < 11 then name == names[i] else name !in names
  }

  function Counting(i: nat): Step -> bool
    requires i < 12
  {
    (step: Step) => step.Record? && CountsUnder(step.packet, i)
  }

  lemma {:induction false} IndexOfExactly(names: seq<string>, name: string)
    requires forall i, j :: 0 <= i < j < |names| ==> names[i] != names[j]
    ensures IndexOf(names, name) == |names| <==> name !in names
    ensures forall i :: 0 <= i < |names| ==> (IndexOf(names, name) == i <==> names[i] == name)
  {
    if names != [] && names[0] != name {
      IndexOfExactly(names[1..], name);
    }
  }

  lemma {:induction false} CounterTells(p: Packet, i: nat)
    requires i < 12
    ensures CounterOf(p) == i <==> CountsUnder(p, i)
  {
    var name := if p.protocol.Some? && p.protocol.value != "" then Lower(p.protocol.value) else "other";
    NamesDiffer();
    IndexOfExactly(NAMED, name);
    if p.protocol.Some? && p.protocol.value == "" {
      assert Lower(p.protocol.value) == "";
    }
  }

  lemma {:induction false} NamesDiffer()
    ensures forall i, j :: 0 <= i < j < |NAMED| ==> NAMED[i] != NAMED[j]
    ensures "other" !in NAMED && "" !in NAMED
  {
  }

  predicate CountsSo(s: State, steps: seq<Step>, i: nat)
    requires i < 12
  {
    |s.stats.counts| == 12 && s.stats.counts[i] == |Filter(Counting(i), steps)|
  }

  lemma {:induction false} CountedStep(threshold: int, s: State, s': State, steps: seq<Step>, step: Step, i: nat)
    requires i < 12 && CountsSo(s, steps, i) && s' == After(threshold, s, step)
    ensures CountsSo(s', steps + [step], i)
  {
    FilterSnoc(Counting(i), steps, step);
    StepCountsOne(threshold, s, step, i);
    if step.Record? {
      CounterTells(step.packet, i);
    }
  }

  /** A run through any kind of step. */
  function RunBy(after: (State, Step) -> State, s: State, steps: seq<Step>): State {
    if steps == [] then s else after(RunBy(after, s, steps[..|steps| - 1]), steps[|steps| - 1])
  }

  lemma {:induction false} RunByIsRun(threshold: int, s: State, steps: seq<Step>)
    ensures RunBy((s: State, step: Step) => After(threshold, s, step), s, steps) == Run(threshold, s, steps)
  {
    if steps != [] {
      RunByIsRun(threshold, s, steps[..|steps| - 1]);
    }
  }

  ghost predicate Counts(after: (State, Step) -> State, i: nat)
    requires i < 12
  {
    forall s, front, step :: CountsSo(s, front, i) ==> CountsSo(after(s, step), front + [step], i)
  }

  lemma {:induction false} CountingRuns(after: (State, Step) -> State, s: State, steps: seq<Step>, i: nat)
    requires i < 12 && Counts(after, i) && CountsSo(s, [], i)
    ensures CountsSo(RunBy(after, s, steps), steps, i)
  {
    if steps != [] {
      var front, last := steps[..|steps| - 1], steps[|steps| - 1];
      CountingRuns(after, s, front, i);
      assert steps == front + [last];
    }
  }

  /** In every run, whatever fails, each counter is the number of recorded packets of its protocol. */
  lemma {:induction false} CountersTellTheProtocols(found: Files, threshold: int, steps: seq<Step>, i: nat)
    requires i < 12
    ensures CountsSo(Run(threshold, Initial(found), steps), steps, i)
  {
    var after := (s: State, step: Step) => After(threshold, s, step);
    forall s, front, step | CountsSo(s, front, i)
      ensures CountsSo(after(s, step), front + [step], i)
    {
      CountedStep(threshold, s, after(s, step), front, step, i);
    }
    CountingRuns(after, Initial(found), steps, i);
    RunByIsRun(threshold, Initial(found), steps);
  }

  lemma {:induction false} StepCountsOne(threshold: int, s: State, step: Step, i: nat)
    requires |s.stats.counts| == 12 && i < 12
    ensures var counts := After(threshold, s, step).stats.counts;
            |counts| == 12 && counts[i] == s.stats.counts[i] + if step.Record? && CounterOf(step.packet) == i then 1 else 0
  {
    if step.Record? {
      var s1 := Counted(s, step.packet);
      assert s1.stats.counts == s.stats.counts[CounterOf(step.packet) := s.stats.counts[CounterOf(step.packet)] + 1];
      RecordedCounts(threshold, s, step.packet, step.call);
    }
  }

  lemma {:induction false} RecordedCounts(threshold: int, s: State, p: Packet, c: Call)
    ensures Recorded(threshold, s, p, c).stats.counts == Counted(s, p).stats.counts
  {
  }

  /**
   * Over every run, each day holds its packets in order of arrival, however the days alternate, if and only if no
   * attempted write fails; then every packet is stored or buffered.
   */
  lemma {:induction false} EachDayHoldsItsPackets(found: Files, threshold: int, steps: seq<Step>)
    ensures var s := Run(threshold, Initial(found), steps);
            && ((forall date :: DayHolds(found, s, Arrived(steps), date)) <==> NoneFails(threshold, found, steps))
            && (NoneFails(threshold, found, steps) ==>
                  s.stats.observed == |Arrived(steps)| == s.stats.stored + |s.buffer| == Sum(s.stats.counts))
  {
    var s := Run(threshold, Initial(found), steps);
    RunKeepsInv(found, threshold, steps);
    NothingIsLostExactly(found, threshold, steps);
    if NoneFails(threshold, found, steps) {
      forall date
        ensures DayHolds(found, s, Arrived(steps), date)
      {
        assert PartitionedOn(found, s, date);
      }
    }
    if forall date :: DayHolds(found, s, Arrived(steps), date) {
      forall date
        ensures Filter(OnDate(date), s.kept) == Filter(OnDate(date), Arrived(steps))
      {
        assert PartitionedOn(found, s, date) && DayHolds(found, s, Arrived(steps), date);
        SameHead(Content(found, date), Filter(OnDate(date), s.kept), Filter(OnDate(date), Arrived(steps)));
      }
      SameDaysSameLength(s.kept, Arrived(steps));
    }
  }

  /** Whatever fails: buffered items share the current date, and the buffer stays below the threshold. */
  lemma {:induction false} BufferIsSmallAndOfOneDay(found: Files, threshold: int, steps: seq<Step>)
    ensures var s := Run(threshold, Initial(found), steps);
            && |s.buffer| < Max(1, threshold)
            && forall i :: 0 <= i < |s.buffer| ==> s.current == Some(s.buffer[i].date)
  {
    RunKeepsInv(found, threshold, steps);
    if steps != [] {
      var n := |steps| - 1;
      if steps[n].Record? {
        RecordBoundsBuffer(threshold, Run(threshold, Initial(found), steps[..n]), steps[n].packet, steps[n].call);
      }
    }
  }

  lemma {:induction false} RecordBoundsBuffer(threshold: int, s: State, p: Packet, c: Call)
    ensures |Recorded(threshold, s, p, c).buffer| < Max(1, threshold)
  {
  }

  /**
   * A recording that does not fail leaves nothing in the buffer exactly if the flush interval is over or the buffer has
   * reached the threshold; else the packet is behind what was buffered for its day.
   */
  lemma {:induction false} FlushesExactlyWhenDue(found: Files, threshold: int, steps: seq<Step>, p: Packet, c: Call)
    requires !Raises(threshold, Run(threshold, Initial(found), steps), p, c)
    ensures var s := Run(threshold, Initial(found), steps);
            var s' := Recorded(threshold, s, p, c);
            var before := if s.buffer != [] && !BelongsTo(p, c.today, s.buffer[0].date) then [] else s.buffer;
            && (s'.buffer == [] <==> c.due || |before| + 1 >= threshold)
            && (s'.buffer != [] ==>
                  |s'.buffer| == |before| + 1 && s'.buffer[..|before|] == before
                  && s'.buffer[|before|].packet == p && BelongsTo(p, c.today, s'.buffer[|before|].date))
  {
    RunKeepsInv(found, threshold, steps);
    var s := Run(threshold, Initial(found), steps);
    DateBelongs(p, c.today);
    if s.buffer != [] {
      assert s.buffer[0].date == s.current.value;
    }
    assert [] + [Item(DateOf(p, c.today), p)] == [Item(DateOf(p, c.today), p)];
  }

  lemma {:induction false} DateBelongs(p: Packet, today: string)
    ensures forall date :: BelongsTo(p, today, date) <==> date == DateOf(p, today)
  {
  }

  /** Whatever fails: the counters balance, and a file written by the store says how many packets it holds. */
  lemma {:induction false} CountersBalance(found: Files, threshold: int, steps: seq<Step>, date: string)
    ensures var s := Run(threshold, Initial(found), steps);
            && s.stats.observed == Sum(s.stats.counts) == s.stats.stored + |s.buffer| + s.lost
            && (date in s.files && !(date in found && s.files[date] == found[date]) ==>
                  s.files[date].Daily? && s.files[date].count == |s.files[date].packets|)
  {
    RunKeepsInv(found, threshold, steps);
  }

  /** The buffer reached the file of the earlier day before the call failed. */
  predicate SavedFirst(s: State, p: Packet, c: Call) { DateChanges(s, p, c) && c.firstWrite }

  lemma {:induction false} FailedFiling(threshold: int, s: State, item: Item, c: Call)
    requires GoodBuffer(s) && (|s.buffer| + 1 >= threshold || c.due) && !c.secondWrite
    ensures Filed(threshold, s, item, c) == s.(buffer := [], current := Some(item.date), kept := s.kept[..|s.kept| - |s.buffer|],
                                               lost := s.lost + |s.buffer| + 1)
  {
    var kept, k := s.kept + [item], |s.kept| - |s.buffer|;
    assert kept[..k] == s.kept[..k];
  }

  lemma {:induction false} FlushedIsGood(s: State, today: string, written: bool)
    requires GoodBuffer(s)
    ensures var s' := Flushed(s, today, written);
            && GoodBuffer(s') && s'.buffer == [] && s'.stats.observed == s.stats.observed
            && s'.kept == (if written then s.kept else s.kept[..|s.kept| - |s.buffer|])
            && s'.lost == (if written then s.lost else s.lost + |s.buffer|)
            && s'.stats.stored == (if written then s.stats.stored + |s.buffer| else s.stats.stored)
  {
  }

  /**
   * A recording that fails always loses the new packet, counted but neither stored nor buffered, and with it the
   * whole buffer, unless that was written at a change of date just before.
   */
  lemma {:induction false} FailedWriteLosesTheBuffer(threshold: int, s: State, p: Packet, c: Call)
    requires GoodBuffer(s) && |s.stats.counts| == 12 && Raises(threshold, s, p, c)
    ensures var s' := Recorded(threshold, s, p, c);
            && s'.buffer == [] && s'.stats.observed == s.stats.observed + 1
            && s'.stats.stored == s.stats.stored + (if SavedFirst(s, p, c) then |s.buffer| else 0)
            && s'.lost == s.lost + 1 + (if SavedFirst(s, p, c) then 0 else |s.buffer|)
            && s'.kept == (if SavedFirst(s, p, c) then s.kept else s.kept[..|s.kept| - |s.buffer|])
  {
    var s1 := Counted(s, p);
    if DateChanges(s, p, c) {
      FlushedIsGood(s1, c.today, c.firstWrite);
      if s.buffer == [] || c.firstWrite {
        FailedFiling(threshold, Flushed(s1, c.today, true), Item(DateOf(p, c.today), p), c);
      }
    } else {
      FailedFiling(threshold, s1, Item(DateOf(p, c.today), p), c);
    }
  }

  // ---------------------------------------------------------------- the store

  class DailyPacketStorage {
    const threshold: int
    var files: Files
    var buffer: seq<Item>
    var current: Option<string>
    var stats: Stats
    ghost var kept: seq<Item>
    ghost var lost: nat

    ghost function Now(): State
      reads this
    {
      State(files, buffer, current, stats, kept, lost)
    }

    constructor (found: Files, threshold: int)
      ensures Now() == Initial(found) && this.threshold == threshold
    {
      this.threshold := threshold;
      files, buffer, current, stats, kept, lost := found, [], None, Stats(0, 0, seq(12, i => 0)), [], 0;
    }

    method FlushLocked(today: string, written: bool) returns (flushed: Option<nat>)
      modifies this
      ensures Now() == Flushed(old(Now()), today, written)
      ensures flushed == if old(buffer) != [] && !written then None else Some(|old(buffer)|)
    {
      if buffer == [] {
        return Some(0);
      }
      var date := if current.Some? then current.value else today;
      var items := buffer;
      buffer := [];
      if !written {
        kept := kept[..Max(|kept| - |items|, 0)];
        lost := lost + |items|;
        return None;
      }
      var packets := if date in files && files[date].Daily? then files[date].packets else [];
      packets := packets + items;
      files := files[date := Daily(packets, |packets|)];
      stats := stats.(stored := stats.stored + |items|);
      flushed := Some(|items|);
    }

    /** False where a write error is raised to the caller. */
    method FilePacket(item: Item, c: Call) returns (ok: bool)
      modifies this
      ensures Now() == Filed(threshold, old(Now()), item, c)
      ensures ok <==> !(Full(threshold, old(Now()), c) && !c.secondWrite)
    {
      current := Some(item.date);
      buffer := buffer + [item];
      kept := kept + [item];
      ok := true;
      if |buffer| >= threshold || c.due {
        var flushed := FlushLocked(c.today, c.secondWrite);
        ok := flushed.Some?;
      }
    }

    method Count(p: Packet)
      requires |stats.counts| == 12
      modifies this
      ensures Now() == Counted(old(Now()), p)
    {
      var i := CounterOf(p);
      stats := stats.(observed := stats.observed + 1, counts := stats.counts[i := stats.counts[i] + 1]);
    }

    method RecordObservation(p: Packet, c: Call) returns (ok: bool)
      requires |stats.counts| == 12
      modifies this
      ensures Now() == Recorded(threshold, old(Now()), p, c)
      ensures ok <==> !Raises(threshold, old(Now()), p, c)
    {
      ghost var s := Now();
      Count(p);
      var date := DateOf(p, c.today);
      if current.Some? && current.value != date {
        var flushed := FlushLocked(c.today, c.firstWrite);
        if flushed.None? {
          lost := lost + 1;
          return false;
        }
        assert Now() == Flushed(Counted(s, p), c.today, true);
      }
      ok := FilePacket(Item(date, p), c);
    }
  }
}
