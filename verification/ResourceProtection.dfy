/** Resource protection: sustained pressure, the choice of a process, cooldown and hourly cap. */
module ResourceProtection {
  import opened Prelude
  import opened Text

  datatype Resource = Cpu | Memory

  datatype Limit = Limit(enabled: bool, threshold: int, sustained: int)

  datatype Config = Config(enabled: bool, cpu: Limit, memory: Limit, cooldown: int, cap: int)

  datatype Process = Process(pid: nat, name: string, exe: string, cpu: int, memory: int)

  datatype Rule = Rule(enabled: bool, name: string, eligible: bool)

  /** What the monitor asks about processes: `safe` is the validator, `normal` normalises names and `base` cuts paths. */
  datatype World = World(safe: Process -> bool, normal: string -> string, base: string -> string, rules: seq<Rule>, terminate: bool)

  function Usage(r: Resource, p: Process): int { if r.Cpu? then p.cpu else p.memory }

  function LimitOf(c: Config, r: Resource): Limit { if r.Cpu? then c.cpu else c.memory }

  // ---------------------------------------------------------------- which process

  /** An enabled, eligible rule whose name is the process's or its program's, or occurs in the process's. */
  predicate Grants(w: World, rule: Rule, p: Process) {
    var name := w.normal(rule.name);
    && rule.enabled && rule.eligible && name != ""
    && (name == w.normal(p.name) || name == (if p.exe == "" then "" else w.normal(w.base(p.exe))) || Contains(w.normal(p.name), name))
  }

  predicate Eligible(w: World, p: Process) { exists i :: 0 <= i < |w.rules| && Grants(w, w.rules[i], p) }

  /** Some enabled rule says eligible and its normalised name is the process's or its program's, or occurs in the process's. */
  lemma {:induction false} EligibleTells(w: World, p: Process)
    ensures Eligible(w, p) <==>
              exists i :: 0 <= i < |w.rules| && w.rules[i].enabled && w.rules[i].eligible && w.normal(w.rules[i].name) != ""
                          && ((exists k :: OccursAt(w.normal(p.name), w.normal(w.rules[i].name), k))
                              || (p.exe != "" && w.normal(w.rules[i].name) == w.normal(w.base(p.exe))))
  {
    forall i | 0 <= i < |w.rules|
      ensures Grants(w, w.rules[i], p) <==>
                && w.rules[i].enabled && w.rules[i].eligible && w.normal(w.rules[i].name) != ""
                && ((exists k :: OccursAt(w.normal(p.name), w.normal(w.rules[i].name), k))
                    || (p.exe != "" && w.normal(w.rules[i].name) == w.normal(w.base(p.exe))))
    {
      var name, own := w.normal(w.rules[i].name), w.normal(p.name);
      ContainsMeaning(own, name);
      if name == own {
        assert OccursAt(own, name, 0);
      }
    }
  }

  method IsProcessEligible(w: World, p: Process) returns (eligible: bool)
    ensures eligible <==> Eligible(w, p)
  {
    var name := w.normal(p.name);
    var program := if p.exe == "" then "" else w.normal(w.base(p.exe));
    for i := 0 to |w.rules|
      invariant forall j :: 0 <= j < i ==> !Grants(w, w.rules[j], p)
    {
      var rule := w.rules[i];
      if !rule.enabled {
        continue;
      }
      var wanted := w.normal(rule.name);
      if wanted == "" {
        continue;
      }
      if wanted == name || wanted == program || Contains(name, wanted) {
        if rule.eligible {
          return true;
        }
      }
    }
    eligible := false;
  }

  predicate Fit(w: World, p: Process) { w.safe(p) && Eligible(w, p) }

  function Inserted(r: Resource, sorted: seq<Process>, p: Process): seq<Process> {
    if sorted == [] || Usage(r, sorted[|sorted| - 1]) >= Usage(r, p) then sorted + [p]
    else Inserted(r, sorted[..|sorted| - 1], p) + [sorted[|sorted| - 1]]
  }

  /** The stable descending sort of `list.sort(reverse=True)`. */
  function Descending(r: Resource, ps: seq<Process>): seq<Process> {
    if ps == [] then [] else Inserted(r, Descending(r, ps[..|ps| - 1]), ps[|ps| - 1])
  }

  predicate IsDescending(r: Resource, ps: seq<Process>) {
    forall i, j :: 0 <= i < j < |ps| ==> Usage(r, ps[i]) >= Usage(r, ps[j])
  }

  lemma {:induction false} InsertedMembers(r: Resource, sorted: seq<Process>, p: Process)
    ensures forall q :: q in Inserted(r, sorted, p) <==> q in sorted || q == p
  {
    if sorted != [] && Usage(r, sorted[|sorted| - 1]) < Usage(r, p) {
      var n := |sorted| - 1;
      InsertedMembers(r, sorted[..n], p);
      assert sorted == sorted[..n] + [sorted[n]];
    }
  }

  lemma {:induction false} DescendingSnoc(r: Resource, sorted: seq<Process>, p: Process)
    requires IsDescending(r, sorted) && forall q :: q in sorted ==> Usage(r, q) >= Usage(r, p)
    ensures IsDescending(r, sorted + [p])
  {
    forall i | 0 <= i < |sorted|
      ensures Usage(r, sorted[i]) >= Usage(r, p)
    {
      assert sorted[i] in sorted;
    }
  }

  lemma {:induction false} InsertedSorts(r: Resource, sorted: seq<Process>, p: Process)
    requires IsDescending(r, sorted)
    ensures IsDescending(r, Inserted(r, sorted, p))
  {
    if sorted != [] {
      var n := |sorted| - 1;
      forall q | q in sorted
        ensures Usage(r, q) >= Usage(r, sorted[n])
      {
        var i :| 0 <= i < |sorted| && sorted[i] == q;
      }
      if Usage(r, sorted[n]) < Usage(r, p) {
        InsertedSorts(r, sorted[..n], p);
        InsertedMembers(r, sorted[..n], p);
        assert forall q :: q in sorted[..n] ==> q in sorted;
        DescendingSnoc(r, Inserted(r, sorted[..n], p), sorted[n]);
      } else {
        DescendingSnoc(r, sorted, p);
      }
    }
  }

  lemma {:induction false} DescendingSorts(r: Resource, ps: seq<Process>)
    ensures IsDescending(r, Descending(r, ps))
    ensures forall q :: q in Descending(r, ps) <==> q in ps
  {
    if ps != [] {
      var n := |ps| - 1;
      DescendingSorts(r, ps[..n]);
      InsertedSorts(r, Descending(r, ps[..n]), ps[n]);
      InsertedMembers(r, Descending(r, ps[..n]), ps[n]);
      assert ps == ps[..n] + [ps[n]];
    }
  }

  datatype Event = Skipped(pid: nat, safe: bool) | CooldownActive(pid: nat) | LimitReached(pid: nat) | Acted(pid: nat)

  /** The first fit process, and the event about the first one if that is another. */
  function FirstFit(w: World, sorted: seq<Process>): Option<Process> {
    if sorted == [] then None else if Fit(w, sorted[0]) then Some(sorted[0]) else FirstFit(w, sorted[1..])
  }

  function SkipOf(w: World, sorted: seq<Process>): seq<Event> {
    if sorted == [] || Fit(w, sorted[0]) then [] else [Skipped(sorted[0].pid, w.safe(sorted[0]))]
  }

  lemma {:induction false} FirstFitIsMaximal(w: World, r: Resource, sorted: seq<Process>)
    requires IsDescending(r, sorted)
    ensures match FirstFit(w, sorted)
            case None => forall q :: q in sorted ==> !Fit(w, q)
            case Some(p) => p in sorted && Fit(w, p) && forall q :: q in sorted && Fit(w, q) ==> Usage(r, q) <= Usage(r, p)
  {
    if sorted != [] {
      assert sorted == [sorted[0]] + sorted[1..];
      if !Fit(w, sorted[0]) {
        FirstFitIsMaximal(w, r, sorted[1..]);
      }
    }
  }

  /** The process chosen uses most among all that are safe to stop and eligible; none is chosen only if none is. */
  lemma {:induction false} ChosenIsMaximal(w: World, r: Resource, ps: seq<Process>)
    ensures match FirstFit(w, Descending(r, ps))
            case None => forall q :: q in ps ==> !Fit(w, q)
            case Some(p) => p in ps && Fit(w, p) && forall q :: q in ps && Fit(w, q) ==> Usage(r, q) <= Usage(r, p)
  {
    DescendingSorts(r, ps);
    FirstFitIsMaximal(w, r, Descending(r, ps));
  }

  method ChooseCandidate(w: World, sorted: seq<Process>) returns (chosen: Option<Process>, events: seq<Event>)
    ensures chosen == FirstFit(w, sorted) && events == SkipOf(w, sorted)
  {
    events := [];
    var skipped := false;
    for i := 0 to |sorted|
      invariant FirstFit(w, sorted) == FirstFit(w, sorted[i..])
      invariant skipped <==> i > 0
      invariant events == if i == 0 then [] else SkipOf(w, sorted)
      invariant i > 0 ==> !Fit(w, sorted[0])
    {
      var p := sorted[i];
      var safe := w.safe(p);
      var eligible := IsProcessEligible(w, p);
      if safe && eligible {
        return Some(p), events;
      }
      if !skipped {
        skipped := true;
        events := events + [Skipped(p.pid, safe)];
      }
    }
    chosen := None;
  }

  // ---------------------------------------------------------------- the monitor

  /** `recent` is the bounded list of interventions; `all` remembers every one of them. */
  datatype State = State(cpuSince: Option<int>, memorySince: Option<int>, last: Option<int>, recent: seq<int>, all: seq<int>)

  const INITIAL := State(None, None, None, [], [])

  function LastHundred(s: seq<int>): seq<int> { LastOf(s, 100) }

  function Since(from: int): int -> bool { (t: int) => t >= from }

  function Recorded(s: State, now: int): State {
    s.(last := Some(now), recent := LastHundred(s.recent + [now]), all := s.all + [now])
  }

  /** The cooldown test of the source: a last time of 0 counts as none. */
  predicate Cooling(c: Config, s: State, now: int) {
    s.last.Some? && s.last.value != 0 && now - s.last.value < c.cooldown
  }

  predicate Capped(c: Config, s: State, now: int) { |Filter(Since(now - 3600), s.recent)| >= c.cap }

  /** `_evaluate_candidates`. */
  function Evaluated(w: World, c: Config, s: State, r: Resource, now: int, ps: seq<Process>): (State, seq<Event>) {
    var sorted := Descending(r, ps);
    var skip := SkipOf(w, sorted);
    match FirstFit(w, sorted)
    case None => (s, skip)
    case Some(p) =>
      if Cooling(c, s, now) then (s, skip + [CooldownActive(p.pid)])
      else if Capped(c, s, now) then (s, skip + [LimitReached(p.pid)])
      else (if w.terminate then Recorded(s, now) else s, skip + [Acted(p.pid)])
  }

  /** One round: when it began, when each resource was evaluated, the measurements if they succeeded, the processes. */
  datatype Sample = Sample(now: int, cpuAt: int, memoryAt: int, reading: Option<(int, int)>, cpuList: seq<Process>, memoryList: seq<Process>)

  function SinceOf(s: State, r: Resource): Option<int> { if r.Cpu? then s.cpuSince else s.memorySince }

  function WithSince(s: State, r: Resource, since: Option<int>): State {
    if r.Cpu? then s.(cpuSince := since) else s.(memorySince := since)
  }

  function ReadingOf(x: Sample, r: Resource): int
    requires x.reading.Some?
  {
    if r.Cpu? then x.reading.value.0 else x.reading.value.1
  }

  /** When the pressure that this measurement continues or begins was first seen. */
  function Begun(s: State, r: Resource, now: int): int { if SinceOf(s, r).Some? then SinceOf(s, r).value else now }

  /** The measurement makes the monitor look for a process to stop. */
  predicate Fires(l: Limit, s: State, r: Resource, now: int, usage: int) {
    l.enabled && usage >= l.threshold && now - Begun(s, r, now) >= l.sustained
  }

  function Guarded(w: World, c: Config, s: State, r: Resource, now: int, usage: int, at: int, ps: seq<Process>): (State, seq<Event>) {
    var l := LimitOf(c, r);
    if !l.enabled then (s, [])
    else if usage < l.threshold then (WithSince(s, r, None), [])
    else if !Fires(l, s, r, now, usage) then (WithSince(s, r, Some(Begun(s, r, now))), [])
    else
      var (s', events) := Evaluated(w, c, s, r, at, ps);
      (WithSince(s', r, None), events)
  }

  /** `evaluate_and_enforce`. */
  function Stepped(w: World, c: Config, s: State, x: Sample): (State, seq<Event>) {
    if !c.enabled then (s.(cpuSince := None, memorySince := None), [])
    else if x.reading.None? then (s, [])
    else
      var (s1, first) := Guarded(w, c, s, Cpu, x.now, x.reading.value.0, x.cpuAt, x.cpuList);
      var (s2, second) := Guarded(w, c, s1, Memory, x.now, x.reading.value.1, x.memoryAt, x.memoryList);
      (s2, first + second)
  }

  function Run(w: World, c: Config, xs: seq<Sample>): State {
    if xs == [] then INITIAL else Stepped(w, c, Run(w, c, xs[..|xs| - 1]), xs[|xs| - 1]).0
  }

  // ---------------------------------------------------------------- whom an evaluation names

  /** Safe to stop, and granted by some rule. */
  predicate MayBeStopped(w: World, p: Process) { w.safe(p) && exists i :: 0 <= i < |w.rules| && Grants(w, w.rules[i], p) }

  predicate UsesNoMore(r: Resource, q: Process, p: Process) {
    match r case Cpu => q.cpu <= p.cpu case Memory => q.memory <= p.memory
  }

  /** A process of the list that may be stopped and uses most among those. */
  ghost predicate IsTarget(w: World, r: Resource, ps: seq<Process>, pid: nat) {
    exists p :: p in ps && p.pid == pid && MayBeStopped(w, p) && forall q :: q in ps && MayBeStopped(w, q) ==> UsesNoMore(r, q, p)
  }

  predicate AnyFit(w: World, ps: seq<Process>) { exists i :: 0 <= i < |ps| && MayBeStopped(w, ps[i]) }

  /** Less than the cooldown has passed since the last intervention, 0 standing for none. */
  predicate StillCooling(c: Config, s: State, at: int) {
    match s.last
    case None => false
    case Some(t) => t != 0 && at < t + c.cooldown
  }

  /** At least the cap of the remembered interventions lie in the hour before. */
  predicate CapReached(c: Config, s: State, at: int) {
    |set i | 0 <= i < |s.recent| && at - 3600 <= s.recent[i]| >= c.cap
  }

  predicate Acts(events: seq<Event>) { exists i :: 0 <= i < |events| && events[i].Acted? }

  predicate Cools(events: seq<Event>) { exists i :: 0 <= i < |events| && events[i].CooldownActive? }

  predicate Limits(events: seq<Event>) { exists i :: 0 <= i < |events| && events[i].LimitReached? }

  /** The time joins the interventions, of which the last hundred are remembered. */
  ghost predicate Joins(s: State, s': State, at: int) {
    && s'.all == s.all + [at] && s'.last == Some(at)
    && s'.recent == (s.recent + [at])[Max(|s.recent| + 1 - 100, 0)..]
  }

  /**
   * What one evaluation does. An action, a cooldown and a reached cap are reported of a target only; an action exactly
   * if there is one and neither the cooldown nor the cap forbids it, and then, if processes are terminated, exactly
   * this time joins the interventions.
   */
  ghost predicate EvaluationTells(w: World, c: Config, s: State, r: Resource, at: int, ps: seq<Process>, s': State, events: seq<Event>) {
    var cooling, capped := StillCooling(c, s, at), CapReached(c, s, at);
    && (forall e :: e in events && !e.Skipped? ==> IsTarget(w, r, ps, e.pid))
    && (Acts(events) <==> AnyFit(w, ps) && !cooling && !capped)
    && (Cools(events) <==> AnyFit(w, ps) && cooling)
    && (Limits(events) <==> AnyFit(w, ps) && !cooling && capped)
    && (if w.terminate && Acts(events) then Joins(s, s', at) else s' == s)
  }

  /** A process that is passed over is reported if it uses most of all; it is not fit, and the event says why. */
  ghost predicate SkipTells(w: World, r: Resource, ps: seq<Process>, events: seq<Event>) {
    && (forall e :: e in events && e.Skipped? ==>
          exists p :: p in ps && p.pid == e.pid && !MayBeStopped(w, p) && e.safe == w.safe(p) && forall q :: q in ps ==> UsesNoMore(r, q, p))
    && ((forall e :: e in events ==> !e.Skipped?) ==>
          ps == [] || exists p :: p in ps && MayBeStopped(w, p) && forall q :: q in ps ==> UsesNoMore(r, q, p))
  }

  lemma {:induction false} CountIsSetSize(s: seq<int>, from: int)
    ensures |Filter(Since(from), s)| == |set i | 0 <= i < |s| && from <= s[i]|
    decreases |s|
  {
    if s != [] {
      var n := |s| - 1;
      CountIsSetSize(s[..n], from);
      FilterSnoc(Since(from), s[..n], s[n]);
      assert s == s[..n] + [s[n]];
      var front, whole := set i | 0 <= i < |s[..n]| && from <= s[..n][i], set i | 0 <= i < |s| && from <= s[i];
      assert whole == if from <= s[n] then front + {n} else front;
    }
  }

  lemma {:induction false} ChosenIsTarget(w: World, r: Resource, ps: seq<Process>)
    ensures FirstFit(w, Descending(r, ps)).Some? <==> AnyFit(w, ps)
    ensures FirstFit(w, Descending(r, ps)).Some? ==> IsTarget(w, r, ps, FirstFit(w, Descending(r, ps)).value.pid)
  {
    ChosenIsMaximal(w, r, ps);
    assert forall i :: 0 <= i < |ps| ==> ps[i] in ps && (Fit(w, ps[i]) <==> MayBeStopped(w, ps[i]));
    if FirstFit(w, Descending(r, ps)).Some? {
      var p := FirstFit(w, Descending(r, ps)).value;
      var i :| 0 <= i < |ps| && ps[i] == p;
    }
  }

  lemma {:induction false} TestsMean(c: Config, s: State, at: int)
    ensures Cooling(c, s, at) <==> StillCooling(c, s, at)
    ensures Capped(c, s, at) <==> CapReached(c, s, at)
  {
    CountIsSetSize(s.recent, at - 3600);
  }

  lemma {:induction false} OneEventMore(skip: seq<Event>, e: Event)
    requires forall i :: 0 <= i < |skip| ==> skip[i].Skipped?
    ensures Acts(skip + [e]) <==> e.Acted?
    ensures Cools(skip + [e]) <==> e.CooldownActive?
    ensures Limits(skip + [e]) <==> e.LimitReached?
    ensures forall x :: x in skip + [e] && !x.Skipped? ==> x == e
  {
    assert (skip + [e])[|skip|] == e;
  }

  lemma {:induction false} OnlySkips(skip: seq<Event>)
    requires forall i :: 0 <= i < |skip| ==> skip[i].Skipped?
    ensures !Acts(skip) && !Cools(skip) && !Limits(skip)
  {
  }

  lemma {:induction false} EvaluationNamesTheTarget(w: World, c: Config, s: State, r: Resource, at: int, ps: seq<Process>)
    ensures EvaluationTells(w, c, s, r, at, ps, Evaluated(w, c, s, r, at, ps).0, Evaluated(w, c, s, r, at, ps).1)
  {
    var sorted := Descending(r, ps);
    ChosenIsTarget(w, r, ps);
    TestsMean(c, s, at);
    var chosen, skip := FirstFit(w, sorted), SkipOf(w, sorted);
    if chosen.None? {
      OnlySkips(skip);
    } else {
      var pid := chosen.value.pid;
      OneEventMore(skip, if StillCooling(c, s, at) then CooldownActive(pid) else if CapReached(c, s, at) then LimitReached(pid) else Acted(pid));
    }
  }

  lemma {:induction false} SkippedIsOnTop(w: World, c: Config, s: State, r: Resource, at: int, ps: seq<Process>)
    ensures SkipTells(w, r, ps, Evaluated(w, c, s, r, at, ps).1)
  {
    var sorted := Descending(r, ps);
    DescendingSorts(r, ps);
    if sorted != [] {
      assert sorted[0] in ps;
      forall q | q in ps
        ensures Usage(r, q) <= Usage(r, sorted[0])
      {
        assert q in sorted;
        var i :| 0 <= i < |sorted| && sorted[i] == q;
      }
    }
    assert forall q :: q in ps ==> q in sorted;
  }

  /** The measurement is at the threshold of an enabled limit, as those since `begun` were, and that lasts long enough. */
  predicate PressureLasts(c: Config, s: State, r: Resource, now: int, usage: int) {
    var begun := match SinceOf(s, r) case Some(t) => t case None => now;
    LimitOf(c, r).enabled && usage >= LimitOf(c, r).threshold && now >= begun + LimitOf(c, r).sustained
  }

  /** One resource in one round: an evaluation if pressure lasts, which resets the timer; else only the timer changes. */
  ghost predicate ResourceTells(w: World, c: Config, s: State, r: Resource, now: int, usage: int, at: int, ps: seq<Process>,
                                s': State, events: seq<Event>) {
    var restored := WithSince(s', r, SinceOf(s, r));
    if PressureLasts(c, s, r, now, usage) then
      SinceOf(s', r).None? && EvaluationTells(w, c, s, r, at, ps, restored, events) && SkipTells(w, r, ps, events)
    else
      && events == [] && restored == s
      && SinceOf(s', r) == if !LimitOf(c, r).enabled then SinceOf(s, r)
                           else if usage < LimitOf(c, r).threshold then None
                           else if SinceOf(s, r).Some? then SinceOf(s, r) else Some(now)
  }

  lemma {:induction false} GuardTells(w: World, c: Config, s: State, r: Resource, now: int, usage: int, at: int, ps: seq<Process>)
    ensures var (s', events) := Guarded(w, c, s, r, now, usage, at, ps); ResourceTells(w, c, s, r, now, usage, at, ps, s', events)
  {
    EvaluationNamesTheTarget(w, c, s, r, at, ps);
    SkippedIsOnTop(w, c, s, r, at, ps);
    assert WithSince(WithSince(Evaluated(w, c, s, r, at, ps).0, r, None), r, SinceOf(s, r)) == Evaluated(w, c, s, r, at, ps).0;
  }

  /**
   * Every round of the enabled monitor whose measurements succeed: the processor first, then the memory on the state
   * that leaves; whom an evaluation acts on, what it reports and what joins the interventions is as told above.
   */
  lemma {:induction false} RoundNamesItsTargets(w: World, c: Config, s: State, x: Sample)
    returns (between: State, first: seq<Event>, second: seq<Event>)
    requires c.enabled && x.reading.Some?
    ensures var (s', events) := Stepped(w, c, s, x);
            && ResourceTells(w, c, s, Cpu, x.now, x.reading.value.0, x.cpuAt, x.cpuList, between, first)
            && ResourceTells(w, c, between, Memory, x.now, x.reading.value.1, x.memoryAt, x.memoryList, s', second)
            && events == first + second
  {
    var cpu := Guarded(w, c, s, Cpu, x.now, x.reading.value.0, x.cpuAt, x.cpuList);
    between, first := cpu.0, cpu.1;
    second := Guarded(w, c, between, Memory, x.now, x.reading.value.1, x.memoryAt, x.memoryList).1;
    GuardTells(w, c, s, Cpu, x.now, x.reading.value.0, x.cpuAt, x.cpuList);
    GuardTells(w, c, between, Memory, x.now, x.reading.value.1, x.memoryAt, x.memoryList);
  }

  // ---------------------------------------------------------------- cooldown and cap

  predicate Apart(times: seq<int>, gap: int) { forall i, j :: 0 <= i < j < |times| ==> times[j] - times[i] >= gap }

  /** The closed span of one hour from `from` on. */
  function HourFrom(from: int): int -> bool { (t: int) => from <= t <= from + 3600 }

  ghost predicate Good(c: Config, s: State, now: int) {
    && s.recent == LastHundred(s.all)
    && s.last == (if s.all == [] then None else Some(s.all[|s.all| - 1]))
    && Ascending(s.all) && (forall i :: 0 <= i < |s.all| ==> 0 < s.all[i] <= now)
    && Apart(s.all, c.cooldown)
  }

  ghost predicate WithinCap(c: Config, s: State) {
    c.cap <= 100 ==> forall from :: |Filter(HourFrom(from), s.all)| <= Max(c.cap, 0)
  }

  lemma {:induction false} RecordingKeepsGood(c: Config, s: State, now: int)
    requires Good(c, s, now) && 0 < now && !Cooling(c, s, now)
    ensures Good(c, Recorded(s, now), now)
  {
    LastOfSnoc(s.all, now, 100);
    var all := s.all + [now];
    forall i | 0 <= i < |s.all|
      ensures all[i] <= now && now - all[i] >= c.cooldown
    {
      assert s.all[i] <= s.all[|s.all| - 1];
    }
  }

  /** A count below 100 over the last hundred is the count over all. */
  lemma {:induction false} BoundedListCounts(all: seq<int>, from: int)
    requires Ascending(all) && |Filter(Since(from), LastHundred(all))| < 100
    ensures |Filter(Since(from), all)| == |Filter(Since(from), LastHundred(all))|
  {
    if |all| > 100 {
      var evicted, kept := all[..|all| - 100], all[|all| - 100..];
      if kept[0] >= from {
        forall x | x in kept
          ensures Since(from)(x)
        {
          var i :| 0 <= i < 100 && kept[i] == x;
          assert all[|all| - 100] <= all[|all| - 100 + i];
        }
        FilterAll(Since(from), kept);
        assert false;
      }
      forall x | x in evicted
        ensures !Since(from)(x)
      {
        var i :| 0 <= i < |evicted| && evicted[i] == x;
        assert all[i] <= all[|all| - 100];
      }
      FilterNone(Since(from), evicted);
      FilterAppend(Since(from), evicted, kept);
      assert all == evicted + kept;
    }
  }

  lemma {:induction false} RecordingKeepsCap(c: Config, s: State, now: int)
    requires Good(c, s, now) && WithinCap(c, s) && !Capped(c, s, now)
    ensures WithinCap(c, Recorded(s, now))
  {
    if c.cap <= 100 {
      BoundedListCounts(s.all, now - 3600);
    }
    forall from | c.cap <= 100
      ensures |Filter(HourFrom(from), s.all + [now])| <= Max(c.cap, 0)
    {
      FilterSnoc(HourFrom(from), s.all, now);
      assert |Filter(HourFrom(from), s.all)| <= Max(c.cap, 0);
      if from <= now <= from + 3600 {
        FilterShorter(HourFrom(from), Since(now - 3600), s.all);
      }
    }
  }

  lemma {:induction false} EvaluationKeeps(w: World, c: Config, s: State, r: Resource, now: int, ps: seq<Process>)
    requires Good(c, s, now) && WithinCap(c, s) && 0 < now
    ensures var s' := Evaluated(w, c, s, r, now, ps).0; Good(c, s', now) && WithinCap(c, s')
  {
    if !Cooling(c, s, now) && !Capped(c, s, now) {
      RecordingKeepsGood(c, s, now);
      RecordingKeepsCap(c, s, now);
    }
  }

  lemma {:induction false} SinceIsIrrelevant(c: Config, s: State, r: Resource, since: Option<int>, now: int)
    requires Good(c, s, now) && WithinCap(c, s)
    ensures Good(c, WithSince(s, r, since), now) && WithinCap(c, WithSince(s, r, since))
  {
    var s' := WithSince(s, r, since);
    assert s'.all == s.all && s'.recent == s.recent && s'.last == s.last;
  }

  lemma {:induction false} GuardKeeps(w: World, c: Config, s: State, r: Resource, now: int, usage: int, at: int, ps: seq<Process>, s': State)
    requires Good(c, s, at) && WithinCap(c, s) && 0 < at
    requires s' == Guarded(w, c, s, r, now, usage, at, ps).0
    ensures Good(c, s', at) && WithinCap(c, s')
  {
    var l := LimitOf(c, r);
    if l.enabled {
      if usage < l.threshold {
        SinceIsIrrelevant(c, s, r, None, at);
      } else if !Fires(l, s, r, now, usage) {
        SinceIsIrrelevant(c, s, r, Some(Begun(s, r, now)), at);
      } else {
        EvaluationKeeps(w, c, s, r, at, ps);
        SinceIsIrrelevant(c, Evaluated(w, c, s, r, at, ps).0, r, None, at);
      }
    }
  }

  /** The clock is positive and does not run back, within a round and from round to round. */
  predicate Clocked(xs: seq<Sample>) {
    && (forall i :: 0 <= i < |xs| ==> 0 < xs[i].now <= xs[i].cpuAt <= xs[i].memoryAt)
    && (forall i, j :: 0 <= i < j < |xs| ==> xs[i].memoryAt <= xs[j].now)
  }

  lemma {:induction false} RunKeeps(w: World, c: Config, xs: seq<Sample>, now: int)
    requires Clocked(xs) && (xs != [] ==> xs[|xs| - 1].memoryAt <= now)
    ensures Good(c, Run(w, c, xs), now) && WithinCap(c, Run(w, c, xs))
  {
    if xs != [] {
      var n := |xs| - 1;
      var x := xs[n];
      RunKeeps(w, c, xs[..n], x.now);
      if c.enabled && x.reading.Some? {
        var s := Run(w, c, xs[..n]);
        var s1 := Guarded(w, c, s, Cpu, x.now, x.reading.value.0, x.cpuAt, x.cpuList).0;
        GuardKeeps(w, c, s, Cpu, x.now, x.reading.value.0, x.cpuAt, x.cpuList, s1);
        var s2 := Guarded(w, c, s1, Memory, x.now, x.reading.value.1, x.memoryAt, x.memoryList).0;
        GuardKeeps(w, c, s1, Memory, x.now, x.reading.value.1, x.memoryAt, x.memoryList, s2);
      }
    }
  }

  /** Over any run under a positive clock, recorded interventions are at least the cooldown apart. */
  lemma {:induction false} InterventionsAreApart(w: World, c: Config, xs: seq<Sample>, i: nat, j: nat)
    requires Clocked(xs) && i < j < |Run(w, c, xs).all|
    ensures Run(w, c, xs).all[j] - Run(w, c, xs).all[i] >= c.cooldown
  {
    RunKeeps(w, c, xs, if xs == [] then 0 else xs[|xs| - 1].memoryAt);
  }

  lemma {:induction false} FilterKeepsApart(times: seq<int>, gap: int, keep: int -> bool)
    requires Apart(times, gap)
    ensures Apart(Filter(keep, times), gap)
  {
    if times != [] {
      var x, rest, kept := times[0], times[1..], Filter(keep, times[1..]);
      FilterKeepsApart(rest, gap, keep);
      FilterMembers(keep, rest);
      forall j | 0 <= j < |kept|
        ensures kept[j] - x >= gap
      {
        assert kept[j] in kept;
        var i :| 0 <= i < |rest| && rest[i] == kept[j];
        assert times[i + 1] == rest[i];
      }
    }
  }

  lemma {:induction false} ApartSpans(times: seq<int>, gap: nat, k: nat)
    requires Apart(times, gap) && k < |times|
    ensures times[k] - times[0] >= k * gap
  {
    if k > 0 {
      ApartSpans(times, gap, k - 1);
      assert k * gap == (k - 1) * gap + gap;
    }
  }

  lemma {:induction false} AnHourIsShort(hour: seq<int>, from: int, k: nat)
    requires k < |hour| && forall t :: t in hour ==> HourFrom(from)(t)
    ensures hour[k] - hour[0] <= 3600
  {
    assert HourFrom(from)(hour[0]) && HourFrom(from)(hour[k]);
  }

  /** Times that are `gap` apart are few: `cap` gaps do not fit into an hour. */
  lemma {:induction false} ApartTimesAreFew(times: seq<int>, gap: nat, cap: nat, from: int)
    requires Apart(times, gap) && cap * gap > 3600
    ensures |Filter(HourFrom(from), times)| <= cap
  {
    var hour := Filter(HourFrom(from), times);
    FilterKeepsApart(times, gap, HourFrom(from));
    FilterMembers(HourFrom(from), times);
    if |hour| > cap {
      AnHourIsShort(hour, from, cap);
      ApartSpans(hour, gap, cap);
    }
  }

  // ---------------------------------------------------------------- pauses

  /** An action keeps the monitor busy: no measurement and no evaluation follows within the pause. */
  predicate Rests(w: World, c: Config, s: State, x: Sample, pause: nat) {
    && (s.last.Some? ==> x.now >= s.last.value + pause)
    && (c.enabled && x.reading.Some? ==>
          var s1 := Guarded(w, c, s, Cpu, x.now, x.reading.value.0, x.cpuAt, x.cpuList).0;
          s1.last.Some? ==> x.memoryAt >= s1.last.value + pause)
  }

  predicate Paced(w: World, c: Config, xs: seq<Sample>, pause: nat) {
    xs == [] || (Paced(w, c, xs[..|xs| - 1], pause) && Rests(w, c, Run(w, c, xs[..|xs| - 1]), xs[|xs| - 1], pause))
  }

  function Other(r: Resource): Resource { if r.Cpu? then Memory else Cpu }

  function Wait(c: Config, r: Resource): nat { Max(LimitOf(c, r).sustained, 0) }

  /** A limit whose own waiting time separates interventions, as no other limit acts meanwhile. */
  predicate Decides(c: Config, r: Resource) {
    LimitOf(c, r).enabled && (Wait(c, r) == 0 || !LimitOf(c, Other(r)).enabled)
  }

  /** Interventions are so far apart, and pressure is noticed only after the pause that follows the last one. */
  ghost predicate Spread(s: State, r: Resource, pause: nat, wait: nat) {
    && Apart(s.all, pause + wait)
    && (wait > 0 && SinceOf(s, r).Some? && s.last.Some? ==> SinceOf(s, r).value >= s.last.value + pause)
  }

  lemma {:induction false} RecordingKeepsSpread(c: Config, s: State, r: Resource, pause: nat, wait: nat, at: int)
    requires Spread(s, r, pause, wait) && Good(c, s, at) && (s.last.Some? ==> at >= s.last.value + pause + wait)
    ensures Apart(Recorded(s, at).all, pause + wait)
  {
    forall i | 0 <= i < |s.all|
      ensures at - s.all[i] >= pause + wait
    {
      assert s.all[i] <= s.all[|s.all| - 1];
    }
  }

  lemma {:induction false} EvaluationKeepsSpread(
      w: World, c: Config, s: State, q: Resource, at: int, ps: seq<Process>, r: Resource, pause: nat, wait: nat)
    requires Good(c, s, at) && Spread(s, r, pause, wait) && (wait > 0 ==> q == r)
    requires s.last.Some? ==> at >= s.last.value + pause + wait
    ensures Spread(WithSince(Evaluated(w, c, s, q, at, ps).0, q, None), r, pause, wait)
  {
    RecordingKeepsSpread(c, s, r, pause, wait, at);
  }

  lemma {:induction false} GuardKeepsSpread(
      w: World, c: Config, s: State, q: Resource, now: int, usage: int, at: int, ps: seq<Process>, r: Resource, pause: nat, wait: nat)
    requires Good(c, s, at) && Spread(s, r, pause, wait) && now <= at
    requires wait > 0 ==> wait == Wait(c, r) && (q == r || !LimitOf(c, q).enabled)
    requires LimitOf(c, q).enabled && s.last.Some? ==> at >= s.last.value + pause && (wait > 0 ==> now >= s.last.value + pause)
    ensures Spread(Guarded(w, c, s, q, now, usage, at, ps).0, r, pause, wait)
  {
    if LimitOf(c, q).enabled {
      if usage < LimitOf(c, q).threshold {
        assert Spread(WithSince(s, q, None), r, pause, wait);
      } else if !Fires(LimitOf(c, q), s, q, now, usage) {
        assert Spread(WithSince(s, q, Some(Begun(s, q, now))), r, pause, wait);
      } else {
        EvaluationKeepsSpread(w, c, s, q, at, ps, r, pause, wait);
      }
    }
  }

  lemma {:induction false} RunIsSpread(w: World, c: Config, xs: seq<Sample>, r: Resource, pause: nat, wait: nat)
    requires Clocked(xs) && Paced(w, c, xs, pause)
    requires wait > 0 ==> wait == Wait(c, r) && !LimitOf(c, Other(r)).enabled
    ensures Spread(Run(w, c, xs), r, pause, wait)
  {
    if xs != [] {
      var n := |xs| - 1;
      var x := xs[n];
      RunIsSpread(w, c, xs[..n], r, pause, wait);
      if c.enabled && x.reading.Some? {
        RunKeeps(w, c, xs[..n], x.cpuAt);
        var s := Run(w, c, xs[..n]);
        GuardKeepsSpread(w, c, s, Cpu, x.now, x.reading.value.0, x.cpuAt, x.cpuList, r, pause, wait);
        var s1 := Guarded(w, c, s, Cpu, x.now, x.reading.value.0, x.cpuAt, x.cpuList).0;
        GuardKeeps(w, c, s, Cpu, x.now, x.reading.value.0, x.cpuAt, x.cpuList, s1);
        GoodLater(c, s1, x.cpuAt, x.memoryAt);
        GuardKeepsSpread(w, c, s1, Memory, x.now, x.reading.value.1, x.memoryAt, x.memoryList, r, pause, wait);
      }
    }
  }

  lemma {:induction false} GoodLater(c: Config, s: State, now: int, later: int)
    requires Good(c, s, now) && now <= later
    ensures Good(c, s, later)
  {
  }

  // ---------------------------------------------------------------- when the cap holds

  /** The list of 100 interventions is long enough for the cap, or the gap between interventions alone keeps it. */
  predicate CapIsEffective(c: Config, gap: int) { c.cap <= 100 || c.cap * gap > 3600 }

  ghost predicate KeepsCap(w: World, c: Config, xs: seq<Sample>, from: int) {
    |Filter(HourFrom(from), Run(w, c, xs).all)| <= Max(c.cap, 0)
  }

  lemma {:induction false} GapKeepsCap(w: World, c: Config, xs: seq<Sample>, from: int, gap: nat)
    requires Clocked(xs) && CapIsEffective(c, gap) && Apart(Run(w, c, xs).all, gap)
    ensures KeepsCap(w, c, xs, from)
  {
    RunKeeps(w, c, xs, if xs == [] then 0 else xs[|xs| - 1].memoryAt);
    if c.cap > 100 {
      ApartTimesAreFew(Run(w, c, xs).all, gap, c.cap, from);
    }
  }

  /** Over any run, no closed span of an hour holds more interventions than a cap that the cooldown or the pause keeps, or of at most 100. */
  lemma {:induction false} AnHourHoldsAtMostTheCap(w: World, c: Config, xs: seq<Sample>, from: int, pause: nat)
    requires Clocked(xs) && Paced(w, c, xs, pause) && CapIsEffective(c, Max(c.cooldown, pause))
    ensures KeepsCap(w, c, xs, from)
  {
    RunKeeps(w, c, xs, if xs == [] then 0 else xs[|xs| - 1].memoryAt);
    RunIsSpread(w, c, xs, Cpu, pause, 0);
    GapKeepsCap(w, c, xs, from, Max(c.cooldown, pause));
  }

  /** The least time between two interventions of one limit: the cooldown, or the pause and then the wait for lasting pressure. */
  function Gap(c: Config, r: Resource, pause: nat): nat { Max(c.cooldown, pause + Wait(c, r)) }

  lemma {:induction false} DecidingLimitKeepsCap(w: World, c: Config, xs: seq<Sample>, from: int, r: Resource, pause: nat)
    requires Clocked(xs) && Paced(w, c, xs, pause) && Decides(c, r) && CapIsEffective(c, Gap(c, r, pause))
    ensures KeepsCap(w, c, xs, from)
  {
    RunKeeps(w, c, xs, if xs == [] then 0 else xs[|xs| - 1].memoryAt);
    RunIsSpread(w, c, xs, r, pause, Wait(c, r));
    GapKeepsCap(w, c, xs, from, Gap(c, r, pause));
  }

  // ---------------------------------------------------------------- a burst

  /** A round in which one resource is at its threshold and the other below, with one process; an action takes `busy`. */
  function Pressed(c: Config, r: Resource, at: int, p: Process, busy: nat): Sample {
    Sample(at, at, if r.Cpu? then at + busy else at,
           Some(if r.Cpu? then (c.cpu.threshold, c.memory.threshold - 1) else (c.cpu.threshold - 1, c.memory.threshold)),
           [p], [p])
  }

  /** The time of the intervention numbered `k`. */
  function BurstAt(c: Config, r: Resource, pause: nat, k: nat): int { 1 + Wait(c, r) + k * Gap(c, r, pause) }

  /** Pressure lasts from the first of these rounds to the second; one round is enough for a limit that fires at once. */
  function Wave(c: Config, r: Resource, p: Process, pause: nat, at: int): seq<Sample> {
    Noticing(c, r, p, at) + [Pressed(c, r, at, p, pause)]
  }

  function Noticing(c: Config, r: Resource, p: Process, at: int): seq<Sample> {
    if Wait(c, r) > 0 then [Pressed(c, r, at - Wait(c, r), p, 0)] else []
  }

  function Burst(c: Config, r: Resource, p: Process, pause: nat, n: nat): seq<Sample> {
    if n == 0 then [] else Burst(c, r, p, pause, n - 1) + Wave(c, r, p, pause, BurstAt(c, r, pause, n - 1))
  }

  function BurstTimes(c: Config, r: Resource, pause: nat, n: nat): seq<int> {
    if n == 0 then [] else BurstTimes(c, r, pause, n - 1) + [BurstAt(c, r, pause, n - 1)]
  }

  lemma {:induction false} PressedWaits(w: World, c: Config, s: State, r: Resource, at: int, p: Process, pause: nat)
    requires c.enabled && LimitOf(c, r).enabled && Wait(c, r) > 0 && s.cpuSince.None? && s.memorySince.None?
    requires s.last.Some? ==> at >= s.last.value + pause
    ensures Stepped(w, c, s, Pressed(c, r, at, p, 0)).0 == WithSince(s, r, Some(at)) && Rests(w, c, s, Pressed(c, r, at, p, 0), pause)
  {
    if r.Cpu? {
      assert Guarded(w, c, s, Cpu, at, c.cpu.threshold, at, [p]).0 == WithSince(s, Cpu, Some(at));
    } else {
      assert Guarded(w, c, s, Cpu, at, c.cpu.threshold - 1, at, [p]).0 == s;
    }
  }

  lemma {:induction false} PressedActs(w: World, c: Config, s: State, r: Resource, at: int, p: Process, busy: nat)
    requires c.enabled && LimitOf(c, r).enabled && w.terminate && Fit(w, p)
    requires SinceOf(s, Other(r)).None? && at - Begun(s, r, at) >= LimitOf(c, r).sustained && !Cooling(c, s, at) && !Capped(c, s, at)
    ensures Stepped(w, c, s, Pressed(c, r, at, p, busy)).0 == WithSince(Recorded(s, at), r, None)
  {
    assert Descending(r, [p]) == [p] by {
      assert [p][..0] == [];
    }
    assert FirstFit(w, [p]) == Some(p);
    if r.Cpu? {
      var s1 := Guarded(w, c, s, Cpu, at, c.cpu.threshold, at, [p]).0;
      assert s1 == WithSince(Recorded(s, at), Cpu, None);
      assert Guarded(w, c, s1, Memory, at, c.memory.threshold - 1, at + busy, [p]).0 == s1;
    } else {
      assert Guarded(w, c, s, Cpu, at, c.cpu.threshold - 1, at, [p]).0 == s;
    }
  }

  /** What the run through a burst leaves: every wave acted. */
  ghost predicate AfterBurst(c: Config, s: State, r: Resource, pause: nat, n: nat) {
    && s.cpuSince.None? && s.memorySince.None? && s.all == BurstTimes(c, r, pause, n) && |s.recent| <= 100
    && s.last == if n == 0 then None else Some(BurstAt(c, r, pause, n - 1))
  }

  lemma {:induction false} NextBurst(c: Config, r: Resource, pause: nat, k: nat)
    ensures BurstAt(c, r, pause, k + 1) == BurstAt(c, r, pause, k) + Gap(c, r, pause)
  {
    NextMultiple(k, Gap(c, r, pause));
  }

  lemma {:induction false} NextMultiple(k: nat, gap: nat)
    ensures (k + 1) * gap == k * gap + gap
  {
  }

  type Step = (State, Sample) -> State
  type Rest = (State, Sample) -> bool

  function StepOf(w: World, c: Config): Step { (s: State, x: Sample) => Stepped(w, c, s, x).0 }

  function RestOf(w: World, c: Config, pause: nat): Rest { (s: State, x: Sample) => Rests(w, c, s, x, pause) }

  /** A run through any steps, and that each of them leaves its rest. */
  function Fold(step: Step, xs: seq<Sample>): State {
    if xs == [] then INITIAL else step(Fold(step, xs[..|xs| - 1]), xs[|xs| - 1])
  }

  predicate AllRest(step: Step, rest: Rest, xs: seq<Sample>) {
    xs == [] || (AllRest(step, rest, xs[..|xs| - 1]) && rest(Fold(step, xs[..|xs| - 1]), xs[|xs| - 1]))
  }

  lemma {:induction false} FoldSnoc(step: Step, rest: Rest, xs: seq<Sample>, x: Sample)
    ensures Fold(step, xs + [x]) == step(Fold(step, xs), x)
    ensures AllRest(step, rest, xs + [x]) <==> AllRest(step, rest, xs) && rest(Fold(step, xs), x)
  {
    assert (xs + [x])[..|xs|] == xs;
  }

  lemma {:induction false} FoldIsRun(w: World, c: Config, xs: seq<Sample>, pause: nat)
    ensures Fold(StepOf(w, c), xs) == Run(w, c, xs)
    ensures AllRest(StepOf(w, c), RestOf(w, c, pause), xs) <==> Paced(w, c, xs, pause)
  {
    if xs != [] {
      FoldIsRun(w, c, xs[..|xs| - 1], pause);
    }
  }

  /** The last round of a wave acts, and is far enough from the intervention before. */
  lemma {:induction false} ActingRound(w: World, c: Config, s: State, r: Resource, p: Process, pause: nat, at: int)
    requires c.enabled && LimitOf(c, r).enabled && w.terminate && Fit(w, p) && c.cap > 100 && |s.recent| <= 100
    requires SinceOf(s, Other(r)).None? && SinceOf(s, r) == (if Wait(c, r) > 0 then Some(at - Wait(c, r)) else None)
    requires s.last.Some? ==> at == s.last.value + Gap(c, r, pause)
    ensures var x := Pressed(c, r, at, p, pause);
            Stepped(w, c, s, x).0 == WithSince(Recorded(s, at), r, None) && Rests(w, c, s, x, pause)
  {
    FilterMembers(Since(at - 3600), s.recent);
    PressedActs(w, c, s, r, at, p, pause);
    assert r.Cpu? ==> Guarded(w, c, s, Cpu, at, c.cpu.threshold, at, [p]).0.last == Some(at);
    assert r.Memory? ==> Guarded(w, c, s, Cpu, at, c.cpu.threshold - 1, at, [p]).0.last == s.last;
  }

  /** The round that notices the pressure, if the limit waits. */
  /** The state in which the last round of a wave finds the monitor. */
  function Noticed(c: Config, s: State, r: Resource, at: int): State {
    if Wait(c, r) > 0 then WithSince(s, r, Some(at - Wait(c, r))) else s
  }

  lemma {:induction false} RecordingGoesOn(c: Config, s: State, s': State, r: Resource, pause: nat, n: nat)
    requires AfterBurst(c, s, r, pause, n) && s'.last == s.last && s'.all == s.all && s'.recent == s.recent && SinceOf(s', Other(r)).None?
    ensures AfterBurst(c, WithSince(Recorded(s', BurstAt(c, r, pause, n)), r, None), r, pause, n + 1)
  {
  }

  /** A wave of rounds leads from `s` to `s'` and leaves the rests. */
  predicate Leads(step: Step, rest: Rest, c: Config, r: Resource, p: Process, pause: nat, at: int, s: State, s': State) {
    var noticing, acting, between := Pressed(c, r, at - Wait(c, r), p, 0), Pressed(c, r, at, p, pause), Noticed(c, s, r, at);
    && (Wait(c, r) > 0 ==> rest(s, noticing) && step(s, noticing) == between)
    && rest(between, acting) && step(between, acting) == s'
  }

  lemma {:induction false} FoldWave(step: Step, rest: Rest, c: Config, r: Resource, p: Process, pause: nat, at: int, xs: seq<Sample>, s: State, s': State)
    requires AllRest(step, rest, xs) && Fold(step, xs) == s && Leads(step, rest, c, r, p, pause, at, s, s')
    ensures AllRest(step, rest, xs + Wave(c, r, p, pause, at)) && Fold(step, xs + Wave(c, r, p, pause, at)) == s'
  {
    var acting := Pressed(c, r, at, p, pause);
    if Wait(c, r) > 0 {
      var noticing := Pressed(c, r, at - Wait(c, r), p, 0);
      FoldSnoc(step, rest, xs, noticing);
      FoldSnoc(step, rest, xs + [noticing], acting);
      assert xs + Wave(c, r, p, pause, at) == xs + [noticing] + [acting];
    } else {
      FoldSnoc(step, rest, xs, acting);
      assert xs + Wave(c, r, p, pause, at) == xs + [acting];
    }
  }

  /** The state after `n` waves. */
  function BurstState(c: Config, r: Resource, pause: nat, n: nat): State {
    if n == 0 then INITIAL
    else
      var at := BurstAt(c, r, pause, n - 1);
      WithSince(Recorded(Noticed(c, BurstState(c, r, pause, n - 1), r, at), at), r, None)
  }

  lemma {:induction false} AfterBurstState(c: Config, r: Resource, pause: nat, n: nat)
    ensures AfterBurst(c, BurstState(c, r, pause, n), r, pause, n)
  {
    if n > 0 {
      var s := BurstState(c, r, pause, n - 1);
      AfterBurstState(c, r, pause, n - 1);
      RecordingGoesOn(c, s, Noticed(c, s, r, BurstAt(c, r, pause, n - 1)), r, pause, n - 1);
    }
  }

  lemma {:induction false} WaveActs(w: World, c: Config, r: Resource, p: Process, pause: nat, k: nat)
    requires c.enabled && LimitOf(c, r).enabled && w.terminate && Fit(w, p) && c.cap > 100
    ensures Leads(StepOf(w, c), RestOf(w, c, pause), c, r, p, pause, BurstAt(c, r, pause, k),
                  BurstState(c, r, pause, k), BurstState(c, r, pause, k + 1))
  {
    var at, s := BurstAt(c, r, pause, k), BurstState(c, r, pause, k);
    AfterBurstState(c, r, pause, k);
    if k > 0 {
      NextBurst(c, r, pause, k - 1);
    }
    if Wait(c, r) > 0 {
      PressedWaits(w, c, s, r, at - Wait(c, r), p, pause);
    }
    ActingRound(w, c, Noticed(c, s, r, at), r, p, pause, at);
  }

  lemma {:induction false} FoldBurst(step: Step, rest: Rest, c: Config, r: Resource, p: Process, pause: nat, n: nat)
    requires forall k: nat ::
               Leads(step, rest, c, r, p, pause, BurstAt(c, r, pause, k), BurstState(c, r, pause, k), BurstState(c, r, pause, k + 1))
    ensures AllRest(step, rest, Burst(c, r, p, pause, n)) && Fold(step, Burst(c, r, p, pause, n)) == BurstState(c, r, pause, n)
  {
    if n > 0 {
      var k := n - 1;
      FoldBurst(step, rest, c, r, p, pause, k);
      FoldWave(step, rest, c, r, p, pause, BurstAt(c, r, pause, k), Burst(c, r, p, pause, k),
               BurstState(c, r, pause, k), BurstState(c, r, pause, k + 1));
    }
  }

  lemma {:induction false} BurstActs(w: World, c: Config, r: Resource, p: Process, pause: nat, n: nat)
    requires c.enabled && LimitOf(c, r).enabled && w.terminate && Fit(w, p) && c.cap > 100
    ensures Paced(w, c, Burst(c, r, p, pause, n), pause) && Run(w, c, Burst(c, r, p, pause, n)).all == BurstTimes(c, r, pause, n)
  {
    forall k: nat
      ensures Leads(StepOf(w, c), RestOf(w, c, pause), c, r, p, pause, BurstAt(c, r, pause, k),
                    BurstState(c, r, pause, k), BurstState(c, r, pause, k + 1))
    {
      WaveActs(w, c, r, p, pause, k);
    }
    FoldBurst(StepOf(w, c), RestOf(w, c, pause), c, r, p, pause, n);
    FoldIsRun(w, c, Burst(c, r, p, pause, n), pause);
    AfterBurstState(c, r, pause, n);
  }

  lemma {:induction false} ClockedAppend(xs: seq<Sample>, ys: seq<Sample>, at: int)
    requires Clocked(xs) && Clocked(ys)
    requires forall i :: 0 <= i < |xs| ==> xs[i].memoryAt <= at
    requires forall i :: 0 <= i < |ys| ==> at <= ys[i].now
    ensures Clocked(xs + ys)
  {
  }

  lemma {:induction false} WaveIsClocked(c: Config, r: Resource, p: Process, pause: nat, at: int)
    requires at > Wait(c, r)
    ensures Clocked(Wave(c, r, p, pause, at))
    ensures forall x :: x in Wave(c, r, p, pause, at) ==> at - Wait(c, r) <= x.now && x.memoryAt <= at + pause
  {
  }

  lemma {:induction false} BurstIsClocked(c: Config, r: Resource, p: Process, pause: nat, n: nat)
    ensures Clocked(Burst(c, r, p, pause, n))
    ensures forall x :: x in Burst(c, r, p, pause, n) ==> n > 0 && x.memoryAt <= BurstAt(c, r, pause, n - 1) + pause
  {
    if n > 0 {
      var front, at := Burst(c, r, p, pause, n - 1), BurstAt(c, r, pause, n - 1);
      var wave := Wave(c, r, p, pause, at);
      WaveIsClocked(c, r, p, pause, at);
      BurstIsClocked(c, r, p, pause, n - 1);
      MultiplyKeepsOrder(0, n - 1, Gap(c, r, pause));
      if n > 1 {
        NextBurst(c, r, pause, n - 2);
      }
      forall i | 0 <= i < |front|
        ensures front[i].memoryAt <= at - Wait(c, r)
      {
        assert front[i] in front;
      }
      ClockedAppend(front, wave, at - Wait(c, r));
    }
  }

  lemma {:induction false} BurstTimesAreWithin(c: Config, r: Resource, pause: nat, n: nat, k: nat)
    requires n <= k + 1 && k * Gap(c, r, pause) <= 3600
    ensures |BurstTimes(c, r, pause, n)| == n && forall t :: t in BurstTimes(c, r, pause, n) ==> HourFrom(1 + Wait(c, r))(t)
  {
    if n > 0 {
      BurstTimesAreWithin(c, r, pause, n - 1, k);
      MultiplyKeepsOrder(n - 1, k, Gap(c, r, pause));
    }
  }

  lemma {:induction false} MultiplyKeepsOrder(a: nat, b: nat, n: nat)
    requires a <= b
    ensures 0 <= a * n <= b * n
  {
  }

  /** With an ineffective cap, a burst of waves of pressure exceeds it within an hour. */
  lemma {:induction false} BurstExceedsTheCap(w: World, c: Config, r: Resource, p: Process, pause: nat)
    requires c.enabled && LimitOf(c, r).enabled && w.terminate && Fit(w, p)
    requires !CapIsEffective(c, Gap(c, r, pause))
    ensures var xs := Burst(c, r, p, pause, c.cap + 1);
            Clocked(xs) && Paced(w, c, xs, pause) && |Filter(HourFrom(1 + Wait(c, r)), Run(w, c, xs).all)| == c.cap + 1
  {
    var n := c.cap + 1;
    BurstIsClocked(c, r, p, pause, n);
    BurstActs(w, c, r, p, pause, n);
    BurstFitsAnHour(c, r, pause);
  }

  lemma {:induction false} BurstFitsAnHour(c: Config, r: Resource, pause: nat)
    requires !CapIsEffective(c, Gap(c, r, pause))
    ensures |Filter(HourFrom(1 + Wait(c, r)), BurstTimes(c, r, pause, c.cap + 1))| == c.cap + 1
  {
    BurstTimesAreWithin(c, r, pause, c.cap + 1, c.cap);
    FilterAll(HourFrom(1 + Wait(c, r)), BurstTimes(c, r, pause, c.cap + 1));
  }

  /**
   * When one limit decides, every run in which actions take their pause keeps the hourly cap if and only if the cap
   * is at most 100 or the least gap between interventions keeps it: above 100 the bounded list never blocks.
   */
  lemma {:induction false} CapIsKeptExactly(w: World, c: Config, r: Resource, p: Process, pause: nat)
    requires c.enabled && Decides(c, r) && w.terminate && Fit(w, p)
    ensures (forall xs, from :: Clocked(xs) && Paced(w, c, xs, pause) ==> KeepsCap(w, c, xs, from))
            <==> CapIsEffective(c, Gap(c, r, pause))
  {
    if CapIsEffective(c, Gap(c, r, pause)) {
      forall xs, from | Clocked(xs) && Paced(w, c, xs, pause)
        ensures KeepsCap(w, c, xs, from)
      {
        DecidingLimitKeepsCap(w, c, xs, from, r, pause);
      }
    } else {
      BurstExceedsTheCap(w, c, r, p, pause);
      assert !KeepsCap(w, c, Burst(c, r, p, pause, c.cap + 1), 1 + Wait(c, r));
    }
  }

  // ---------------------------------------------------------------- sustained pressure

  lemma {:induction false} SteppedSince(w: World, c: Config, s: State, x: Sample, r: Resource)
    requires c.enabled && LimitOf(c, r).enabled
    ensures SinceOf(Stepped(w, c, s, x).0, r) ==
            if x.reading.None? then SinceOf(s, r)
            else if ReadingOf(x, r) < LimitOf(c, r).threshold || Fires(LimitOf(c, r), s, r, x.now, ReadingOf(x, r)) then None
            else Some(Begun(s, r, x.now))
  {
  }

  /** From sample `i` on, every successful measurement was at or above the threshold, that of `i` among them. */
  predicate HighFrom(c: Config, xs: seq<Sample>, r: Resource, i: nat) {
    && i < |xs| && xs[i].reading.Some?
    && forall j :: i <= j < |xs| && xs[j].reading.Some? ==> ReadingOf(xs[j], r) >= LimitOf(c, r).threshold
  }

  lemma {:induction false} SinceMeaning(w: World, c: Config, xs: seq<Sample>, r: Resource) returns (i: nat)
    requires c.enabled && LimitOf(c, r).enabled && SinceOf(Run(w, c, xs), r).Some?
    ensures HighFrom(c, xs, r, i) && xs[i].now == SinceOf(Run(w, c, xs), r).value
  {
    var n := |xs| - 1;
    var s := Run(w, c, xs[..n]);
    SteppedSince(w, c, s, xs[n], r);
    if SinceOf(s, r).None? {
      i := n;
    } else {
      i := SinceMeaning(w, c, xs[..n], r);
      assert xs[..n][i] == xs[i];
      forall j | i <= j < |xs| && xs[j].reading.Some?
        ensures ReadingOf(xs[j], r) >= LimitOf(c, r).threshold
      {
        if j < n {
          assert xs[..n][j] == xs[j];
        }
      }
    }
  }

  /** The monitor looks for a process only after pressure that lasted: every successful measurement for at least the sustained time was high. */
  lemma {:induction false} FiresOnlyAfterSustainedPressure(w: World, c: Config, xs: seq<Sample>, x: Sample, r: Resource) returns (i: nat)
    requires c.enabled && x.reading.Some? && Fires(LimitOf(c, r), Run(w, c, xs), r, x.now, ReadingOf(x, r))
    ensures HighFrom(c, xs + [x], r, i) && x.now - (xs + [x])[i].now >= LimitOf(c, r).sustained
  {
    var s := Run(w, c, xs);
    if SinceOf(s, r).None? {
      i := |xs|;
    } else {
      i := SinceMeaning(w, c, xs, r);
      var all := xs + [x];
      forall j | i <= j < |all| && all[j].reading.Some?
        ensures ReadingOf(all[j], r) >= LimitOf(c, r).threshold
      {
        if j < |xs| {
          assert all[j] == xs[j];
        }
      }
    }
  }

  /** Without it nothing is recorded and no process is reported as stopped. */
  lemma {:induction false} NothingHappensWithoutPressure(w: World, c: Config, s: State, x: Sample)
    requires c.enabled && x.reading.Some? ==> !Fires(c.cpu, s, Cpu, x.now, x.reading.value.0) && !Fires(c.memory, s, Memory, x.now, x.reading.value.1)
    ensures Stepped(w, c, s, x).0.all == s.all && Stepped(w, c, s, x).1 == []
  {
  }

  // ---------------------------------------------------------------- the class

  class ResourceProtectionMonitor {
    var config: Config
    var cpuHighSince: Option<int>
    var memoryHighSince: Option<int>
    var lastIntervention: Option<int>
    var interventions: seq<int>
    ghost var all: seq<int>

    ghost function Now(): State
      reads this
    {
      State(cpuHighSince, memoryHighSince, lastIntervention, interventions, all)
    }

    constructor (c: Config)
      ensures Now() == INITIAL && config == c
    {
      config, cpuHighSince, memoryHighSince, lastIntervention, interventions, all := c, None, None, None, [], [];
    }

    method EvaluateCandidates(w: World, r: Resource, now: int, ps: seq<Process>) returns (events: seq<Event>)
      modifies this
      ensures config == old(config) && (Now(), events) == Evaluated(w, config, old(Now()), r, now, ps)
    {
      var chosen;
      chosen, events := ChooseCandidate(w, Descending(r, ps));
      if chosen.None? {
        return;
      }
      var pid := chosen.value.pid;
      if lastIntervention.Some? && lastIntervention.value != 0 && now - lastIntervention.value < config.cooldown {
        return events + [CooldownActive(pid)];
      }
      if |Filter(Since(now - 3600), interventions)| >= config.cap {
        return events + [LimitReached(pid)];
      }
      if w.terminate {
        lastIntervention := Some(now);
        interventions := LastHundred(interventions + [now]);
        all := all + [now];
      }
      events := events + [Acted(pid)];
    }

    method GuardCpu(w: World, now: int, usage: int, at: int, ps: seq<Process>) returns (events: seq<Event>)
      modifies this
      ensures config == old(config) && (Now(), events) == Guarded(w, config, old(Now()), Cpu, now, usage, at, ps)
    {
      events := [];
      if !config.cpu.enabled {
        return;
      }
      if usage < config.cpu.threshold {
        cpuHighSince := None;
        return;
      }
      var begun := if cpuHighSince.Some? then cpuHighSince.value else now;
      cpuHighSince := Some(begun);
      if now - begun >= config.cpu.sustained {
        events := EvaluateCandidates(w, Cpu, at, ps);
        cpuHighSince := None;
      }
    }

    method GuardMemory(w: World, now: int, usage: int, at: int, ps: seq<Process>) returns (events: seq<Event>)
      modifies this
      ensures config == old(config) && (Now(), events) == Guarded(w, config, old(Now()), Memory, now, usage, at, ps)
    {
      events := [];
      if !config.memory.enabled {
        return;
      }
      if usage < config.memory.threshold {
        memoryHighSince := None;
        return;
      }
      var begun := if memoryHighSince.Some? then memoryHighSince.value else now;
      memoryHighSince := Some(begun);
      if now - begun >= config.memory.sustained {
        events := EvaluateCandidates(w, Memory, at, ps);
        memoryHighSince := None;
      }
    }

    method EvaluateAndEnforce(w: World, x: Sample) returns (events: seq<Event>)
      modifies this
      ensures config == old(config) && (Now(), events) == Stepped(w, config, old(Now()), x)
    {
      if !config.enabled {
        cpuHighSince, memoryHighSince := None, None;
        return [];
      }
      if x.reading.None? {
        return [];
      }
      var first := GuardCpu(w, x.now, x.reading.value.0, x.cpuAt, x.cpuList);
      var second := GuardMemory(w, x.now, x.reading.value.1, x.memoryAt, x.memoryList);
      events := first + second;
    }
  }
}
