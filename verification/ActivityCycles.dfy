/** From the filing of finalised flows to the activity windows that report them. */
module ActivityCycles {
  import opened Prelude
  import opened ActivityWindows
  import Store = RotatingStoreModel
  import Query = FlowQueryModel

  type Days = map<Query.Day, Store.Files<Item>>

  /** All times are microseconds. */
  const SECOND: int := 1_000_000

  /** A finalised flow is filed, a day's file is rotated, or an activity cycle runs. */
  datatype Step = Filed(at: int, flow: Item) | Rotated(day: Query.Day) | Cycle(end: int)

  /** `offset` is the distance of local time from UTC. */
  function After(days: Days, offset: int, step: Step): Days {
    match step
    case Filed(at, flow) => Query.FiledOn(days, Query.LocalDay(at, offset), flow)
    case Rotated(d) => if d in days && days[d].base.Some? then days[d := Store.Rotate(days[d])] else days
    case Cycle(_) => days
  }

  /** From an empty store. */
  function Run(offset: int, steps: seq<Step>): Days {
    if steps == [] then map[] else After(Run(offset, steps[..|steps| - 1]), offset, steps[|steps| - 1])
  }

  /** The files a cycle reads: those of the local day on which its window ends. */
  function FilesAt(days: Days, offset: int, end: int): Store.Files<Item> {
    var d := Query.LocalDay(end, offset);
    if d in days then days[d] else Store.Files(None, map[])
  }

  /** `run_once` of the cycle that is step `c`. */
  function Report(private: Privacy, offset: int, steps: seq<Step>, c: nat, macs: seq<Option<string>>, length: nat): seq<Record>
    requires c < |steps| && steps[c].Cycle?
  {
    RunOnce(private, FilesAt(Run(offset, steps[..c]), offset, steps[c].end), macs, steps[c].end, length)
  }

  /** The flows that report is made of. */
  function Reported(offset: int, steps: seq<Step>, c: nat, length: nat): seq<Item>
    requires c < |steps| && steps[c].Cycle?
  {
    var end := steps[c].end;
    Filter(InWindow(end - length, end), Store.ActiveRecords(FilesAt(Run(offset, steps[..c]), offset, end)))
  }

  /** The flow was filed for that day before step `c` and not rotated away since. */
  ghost predicate InFile(offset: int, steps: seq<Step>, c: nat, d: Query.Day, f: Item)
    requires c <= |steps|
  {
    exists i :: 0 <= i < c && steps[i].Filed? && steps[i].flow == f && Query.LocalDay(steps[i].at, offset) == d
                && forall j :: i < j < c ==> steps[j] != Rotated(d)
  }

  function ActiveOn(days: Days, d: Query.Day): seq<Item> {
    if d in days then Store.ActiveRecords(days[d]) else []
  }

  lemma {:induction false} ActiveAfter(days: Days, offset: int, step: Step, d: Query.Day, f: Item)
    ensures f in ActiveOn(After(days, offset, step), d) <==>
            (step.Filed? && step.flow == f && Query.LocalDay(step.at, offset) == d) || (f in ActiveOn(days, d) && step != Rotated(d))
  {
  }

  lemma {:induction false} InFileSnoc(offset: int, steps: seq<Step>, n: nat, d: Query.Day, f: Item)
    requires n < |steps|
    ensures InFile(offset, steps, n + 1, d, f) <==>
            (steps[n].Filed? && steps[n].flow == f && Query.LocalDay(steps[n].at, offset) == d)
            || (InFile(offset, steps, n, d, f) && steps[n] != Rotated(d))
  {
    if InFile(offset, steps, n, d, f) && steps[n] != Rotated(d) {
      var i :| 0 <= i < n && steps[i].Filed? && steps[i].flow == f && Query.LocalDay(steps[i].at, offset) == d
               && forall j :: i < j < n ==> steps[j] != Rotated(d);
      assert forall j :: i < j < n + 1 ==> steps[j] != Rotated(d);
    }
  }

  lemma {:induction false} ActiveOnExactly(offset: int, steps: seq<Step>, n: nat, d: Query.Day, f: Item)
    requires n <= |steps|
    ensures f in ActiveOn(Run(offset, steps[..n]), d) <==> InFile(offset, steps, n, d, f)
  {
    if n > 0 {
      ActiveOnExactly(offset, steps, n - 1, d, f);
      InFileSnoc(offset, steps, n - 1, d, f);
      assert steps[..n][..n - 1] == steps[..n - 1];
      ActiveAfter(Run(offset, steps[..n - 1]), offset, steps[n - 1], d, f);
    }
  }

  /** The flow is among those the cycle's report is made of. */
  predicate Reports(offset: int, steps: seq<Step>, c: nat, length: nat, f: Item)
    requires c < |steps| && steps[c].Cycle?
  {
    f in Reported(offset, steps, c, length)
  }

  /**
   * Over every run of filings, rotations and cycles: a cycle reports a flow if and only if the flow was last seen in
   * its window, was filed before it under the local day on which the window ends, and was not rotated away since.
   */
  lemma {:induction false} FlowIsReportedExactly(offset: int, steps: seq<Step>, c: nat, length: nat, f: Item)
    requires c < |steps| && steps[c].Cycle?
    ensures Reports(offset, steps, c, length, f)
            <==> && f.Flow? && f.lastSeen.Some? && steps[c].end - length <= f.lastSeen.value && f.lastSeen.value < steps[c].end
                 && InFile(offset, steps, c, Query.LocalDay(steps[c].end, offset), f)
  {
    var end := steps[c].end;
    ActiveOnExactly(offset, steps, c, Query.LocalDay(end, offset), f);
    FilterMembers(InWindow(end - length, end), Store.ActiveRecords(FilesAt(Run(offset, steps[..c]), offset, end)));
  }

  /** Each record of the report is its device's summary of those flows. */
  lemma {:induction false} ReportTellsItsFlows(
      private: Privacy, offset: int, steps: seq<Step>, c: nat, macs: seq<Option<string>>, length: nat)
    requires c < |steps| && steps[c].Cycle?
    ensures var known, report := KnownMacs(macs), Report(private, offset, steps, c, macs, length);
            && |report| == |known|
            && (forall i :: 0 <= i < |known| ==>
                  report[i] == ToRecord(SummaryOf(private, known[i], Reported(offset, steps, c, length)), known[i],
                                        steps[c].end - length, steps[c].end))
  {
    var end, known, flows := steps[c].end, KnownMacs(macs), Reported(offset, steps, c, length);
    RecordsAt(private, known, flows, end - length, end);
    forall i | 0 <= i < |known|
      ensures RecordOf(private, known[i], flows, end - length, end) == ToRecord(SummaryOf(private, known[i], flows), known[i], end - length, end)
    {
      RecordTellsSummary(private, known[i], flows, end - length, end);
    }
  }

  // ---------------------------------------------------------------- flows no cycle reports

  /** The loop waits a window's length between cycles, so their windows do not overlap. */
  ghost predicate Spaced(steps: seq<Step>, length: nat) {
    forall i, j :: 0 <= i < j < |steps| && steps[i].Cycle? && steps[j].Cycle? ==> steps[i].end + length <= steps[j].end
  }

  ghost predicate IsReported(offset: int, steps: seq<Step>, length: nat, f: Item) {
    exists c :: 0 <= c < |steps| && steps[c].Cycle? && Reports(offset, steps, c, length, f)
  }

  /** A flow is reported at most once, and if a cycle's window holds it then only if that very cycle finds it in the file. */
  lemma {:induction false} OwnCycleDecides(offset: int, steps: seq<Step>, own: nat, length: nat, f: Item)
    requires Spaced(steps, length) && own < |steps| && steps[own].Cycle?
    requires InWindow(steps[own].end - length, steps[own].end)(f)
    ensures IsReported(offset, steps, length, f) <==> InFile(offset, steps, own, Query.LocalDay(steps[own].end, offset), f)
    ensures forall c :: 0 <= c < |steps| && steps[c].Cycle? && Reports(offset, steps, c, length, f) ==> c == own
  {
    forall c | 0 <= c < |steps| && steps[c].Cycle? && Reports(offset, steps, c, length, f)
      ensures c == own
    {
      FlowIsReportedExactly(offset, steps, c, length, f);
    }
    FlowIsReportedExactly(offset, steps, own, length, f);
  }

  /** Before a cycle, nothing is filed at a time after its own. */
  ghost predicate ClockRuns(steps: seq<Step>) {
    forall i, j :: 0 <= i < j < |steps| && steps[i].Filed? && steps[j].Cycle? ==> steps[i].at <= steps[j].end
  }

  /** A flow that is finalised only after its window ended, its idle time not being over by then, is in no report at all. */
  lemma {:induction false} LateFlowIsNeverReported(offset: int, steps: seq<Step>, own: nat, length: nat, f: Item)
    requires Spaced(steps, length) && ClockRuns(steps) && own < |steps| && steps[own].Cycle?
    requires InWindow(steps[own].end - length, steps[own].end)(f)
    requires forall i :: 0 <= i < |steps| && steps[i].Filed? && steps[i].flow == f ==> steps[i].at > steps[own].end
    ensures !IsReported(offset, steps, length, f)
  {
    OwnCycleDecides(offset, steps, own, length, f);
  }

  /** For example a flow last seen ten seconds before the end of a window of 15 minutes and filed 50 seconds after it. */
  lemma {:induction false} FlowAcrossACycleIsMissed(offset: int, end: int, f: Item)
    requires f.Flow? && f.lastSeen == Some(end - 10 * SECOND)
    ensures var steps := [Cycle(end), Filed(end + 50 * SECOND, f), Cycle(end + 900 * SECOND)];
            Spaced(steps, 900 * SECOND) && ClockRuns(steps) && !IsReported(offset, steps, 900 * SECOND, f)
  {
    var steps := [Cycle(end), Filed(end + 50 * SECOND, f), Cycle(end + 900 * SECOND)];
    assert steps[0] == Cycle(end);
    LateFlowIsNeverReported(offset, steps, 0, 900 * SECOND, f);
  }
}
