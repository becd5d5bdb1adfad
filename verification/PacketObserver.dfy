/** The packet observer: every packet to the daily store, the packets in scope to the flow aggregator. */
module PacketObserverModel {
  import opened Prelude
  import opened FlowModel
  import FlowScope
  import Agg = FlowAggregatorObject
  import Scope = ScopeFilterModel
  import P = PacketStorage

  /** `packed` is the stored form of an observation. */
  datatype Setup = Setup(threshold: int, timeout: int, syntax: Scope.IpSyntax, networks: seq<Scope.Network>, packed: Obs -> P.Packet)

  datatype Pipe = Pipe(store: P.State, table: Table<Flow>, records: seq<Record>)

  /** A packet arrives, or the aggregator is swept or flushed. */
  datatype Step = Arrive(obs: Obs, now: int, call: P.Call) | Tick(event: Event)

  predicate ValidSteps(steps: seq<Step>) {
    forall i :: 0 <= i < |steps| ==> steps[i].Tick? ==> !steps[i].event.Packet?
  }

  function InScope(setup: Setup, o: Obs): bool { FlowScope.KeepsObs(setup.syntax, setup.networks, o) }

  /** `_handle_packet`: the store comes first, and an error it raises ends the handling of the packet. */
  function Handled(setup: Setup, pipe: Pipe, o: Obs, now: int, call: P.Call): Pipe {
    var p := setup.packed(o);
    Pipe(P.Recorded(setup.threshold, pipe.store, p, call),
         if !P.Raises(setup.threshold, pipe.store, p, call) && InScope(setup, o) then Recorded(pipe.table, o, now) else pipe.table,
         pipe.records)
  }

  function Stepped(setup: Setup, pipe: Pipe, step: Step): Pipe {
    match step
    case Arrive(o, now, call) => Handled(setup, pipe, o, now, call)
    case Tick(e) =>
      var (table, more) := Aggregated(setup.timeout, pipe.table, e);
      Pipe(pipe.store, table, pipe.records + more)
  }

  function Run(setup: Setup, found: P.Files, steps: seq<Step>): Pipe {
    if steps == [] then Pipe(P.Initial(found), [], [])
    else Stepped(setup, Run(setup, found, steps[..|steps| - 1]), steps[|steps| - 1])
  }

  // ---------------------------------------------------------------- the two branches by themselves

  /** What the daily store sees: every packet, in scope or not. */
  function StoreSteps(setup: Setup, steps: seq<Step>): seq<P.Step> {
    if steps == [] then []
    else
      var front, last := StoreSteps(setup, steps[..|steps| - 1]), steps[|steps| - 1];
      if last.Arrive? then front + [P.Record(setup.packed(last.obs), last.call)] else front
  }

  /** The events of an observer without scope: the packets whose recording did not raise, and the ticks. */
  function Reached(setup: Setup, found: P.Files, steps: seq<Step>): seq<Event> {
    if steps == [] then []
    else
      var n := |steps| - 1;
      var front, last := Reached(setup, found, steps[..n]), steps[n];
      match last
      case Arrive(o, now, call) =>
        if P.Raises(setup.threshold, P.Run(setup.threshold, P.Initial(found), StoreSteps(setup, steps[..n])), setup.packed(o), call)
        then front else front + [Packet(o, now)]
      case Tick(e) => front + [e]
  }

  lemma {:induction false} StoreSeesEverything(setup: Setup, found: P.Files, steps: seq<Step>)
    ensures Run(setup, found, steps).store == P.Run(setup.threshold, P.Initial(found), StoreSteps(setup, steps))
  {
    if steps != [] {
      var n := |steps| - 1;
      StoreSeesEverything(setup, found, steps[..n]);
      if steps[n].Arrive? {
        var front := StoreSteps(setup, steps[..n]);
        assert StoreSteps(setup, steps)[..|front|] == front;
      }
    }
  }

  ghost predicate AggregatesKept(setup: Setup, pipe: Pipe, events: seq<Event>) {
    (pipe.table, pipe.records) == Aggregate(setup.timeout, FlowScope.KeptEvents(setup.syntax, setup.networks, events))
  }

  /** One event more for the aggregator: a packet out of scope is none. */
  lemma {:induction false} OneMore(setup: Setup, pipe: Pipe, events: seq<Event>, e: Event, pipe': Pipe)
    requires AggregatesKept(setup, pipe, events)
    requires (pipe'.table, pipe'.records) ==
             if e.Packet? && !InScope(setup, e.obs) then (pipe.table, pipe.records)
             else (Aggregated(setup.timeout, pipe.table, e).0, pipe.records + Aggregated(setup.timeout, pipe.table, e).1)
    ensures AggregatesKept(setup, pipe', events + [e])
  {
    FlowScope.KeptEventsSnoc(setup.syntax, setup.networks, events, e);
    AggregateSnoc(setup.timeout, FlowScope.KeptEvents(setup.syntax, setup.networks, events), e);
  }

  lemma {:induction false} AggregatorSeesTheScope(setup: Setup, found: P.Files, steps: seq<Step>)
    requires ValidSteps(steps)
    ensures AggregatesKept(setup, Run(setup, found, steps), Reached(setup, found, steps))
  {
    if steps != [] {
      var n := |steps| - 1;
      var pipe, events := Run(setup, found, steps[..n]), Reached(setup, found, steps[..n]);
      AggregatorSeesTheScope(setup, found, steps[..n]);
      StoreSeesEverything(setup, found, steps[..n]);
      match steps[n]
      case Arrive(o, now, call) =>
        if !P.Raises(setup.threshold, pipe.store, setup.packed(o), call) {
          assert pipe.records + [] == pipe.records;
          OneMore(setup, pipe, events, Packet(o, now), Handled(setup, pipe, o, now, call));
        }
      case Tick(e) =>
        OneMore(setup, pipe, events, e, Stepped(setup, pipe, steps[n]));
    }
  }

  /**
   * The observer finalises exactly the in-scope flow records of an observer without scope that handled the same
   * packets, and its daily store is that of one without scope.
   */
  lemma {:induction false} ObserverFinalisesTheScope(setup: Setup, found: P.Files, steps: seq<Step>)
    requires ValidSteps(steps)
    ensures Run(setup, found, steps).records
         == FlowScope.KeptRecords(setup.syntax, setup.networks, Aggregate(setup.timeout, Reached(setup, found, steps)).1)
    ensures Run(setup, found, steps).store == P.Run(setup.threshold, P.Initial(found), StoreSteps(setup, steps))
  {
    AggregatorSeesTheScope(setup, found, steps);
    FlowScope.FilteringCommutesWithAggregation(setup.syntax, setup.networks, setup.timeout, Reached(setup, found, steps));
    StoreSeesEverything(setup, found, steps);
  }

  /** The events of an observer without scope whose store never fails. */
  function AllEvents(steps: seq<Step>): seq<Event> {
    if steps == [] then []
    else
      var front, last := AllEvents(steps[..|steps| - 1]), steps[|steps| - 1];
      front + [if last.Arrive? then Packet(last.obs, last.now) else last.event]
  }

  /** Recording the packet that arrives in this step raises. */
  predicate Hidden(setup: Setup, found: P.Files, steps: seq<Step>, i: nat)
    requires i < |steps|
  {
    && steps[i].Arrive?
    && P.Raises(setup.threshold, P.Run(setup.threshold, P.Initial(found), StoreSteps(setup, steps[..i])),
                setup.packed(steps[i].obs), steps[i].call)
  }

  /** Over every run, all packets reach the scope and the aggregator if and only if recording none of them raises. */
  lemma {:induction false} AllPacketsReachExactly(setup: Setup, found: P.Files, steps: seq<Step>)
    ensures |Reached(setup, found, steps)| <= |AllEvents(steps)|
    ensures Reached(setup, found, steps) == AllEvents(steps)
            <==> forall i :: 0 <= i < |steps| ==> !Hidden(setup, found, steps, i)
  {
    if steps != [] {
      var n := |steps| - 1;
      AllPacketsReachExactly(setup, found, steps[..n]);
      forall i | 0 <= i < n
        ensures Hidden(setup, found, steps, i) == Hidden(setup, found, steps[..n], i)
      {
        assert steps[..n][..i] == steps[..i] && steps[..n][i] == steps[i];
      }
      if !Hidden(setup, found, steps, n) {
        var last := if steps[n].Arrive? then Packet(steps[n].obs, steps[n].now) else steps[n].event;
        assert Reached(setup, found, steps) == Reached(setup, found, steps[..n]) + [last];
        SameFront(Reached(setup, found, steps[..n]), AllEvents(steps[..n]), last);
      }
    }
  }

  lemma {:induction false} SameFront<T>(a: seq<T>, b: seq<T>, x: T)
    ensures a + [x] == b + [x] <==> a == b
  {
    if a + [x] == b + [x] {
      assert a == (a + [x])[..|a|] && b == (b + [x])[..|b|];
    }
  }

  // ---------------------------------------------------------------- the observer

  class PacketObserver {
    const storage: P.DailyPacketStorage
    const scope: Scope.ScopeFilter
    const aggregator: Agg.FlowAggregator

    constructor (storage: P.DailyPacketStorage, scope: Scope.ScopeFilter, aggregator: Agg.FlowAggregator)
      ensures this.storage == storage && this.scope == scope && this.aggregator == aggregator
    {
      this.storage, this.scope, this.aggregator := storage, scope, aggregator;
    }

    ghost function Now(): Pipe
      reads storage, aggregator
    {
      Pipe(storage.Now(), aggregator.table, aggregator.stored)
    }

    method HandlePacket(packed: Obs -> P.Packet, o: Obs, now: int, call: P.Call)
      requires aggregator.Valid() && |storage.stats.counts| == 12
      modifies storage, aggregator, aggregator.flows.Values
      ensures aggregator.Valid()
      ensures Now() == Handled(Setup(storage.threshold, aggregator.timeout, scope.syntax, scope.networks, packed), old(Now()), o, now, call)
    {
      var ok := storage.RecordObservation(packed(o), call);
      if !ok {
        return;
      }
      var inScope := scope.Keep(o.srcIp, o.dstIp);
      if inScope {
        aggregator.RecordPacket(o, now);
      }
    }
  }
}
