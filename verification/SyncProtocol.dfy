/**
 The durable delta synchronisation of closed activity windows as a step relation.
 A step is one region the client runs under its lock, or one action outside it; a crash
 may fall between any two steps, also between the two file operations of `_mark_completed`.
 */
module SyncProtocol {
  import opened Prelude
  import opened Text

  type WindowId = string
  type FileName = string
  type ThreadId = nat

  datatype Payload = Payload(windowId: WindowId, body: string)

  /** `key` names the pending file of a window (a truncated digest in the source, opaque here). */
  datatype Config = Config(maxRetries: nat, retryBase: real, key: WindowId -> FileName)

  /** Where a worker thread stands in `_send_with_retries` and `_mark_completed`. */
  datatype Pc =
    | Registering
    | Starting(attempt: nat)
    | Sending(attempt: nat)
    | Waiting(attempt: nat)
    | Reading(attempt: nat)
    | Sleeping(attempt: nat)
    | Marking
    | Unlinking
    | Exiting

  /** `attemptAt` is the number of the step that began the latest attempt. */
  datatype Worker = Worker(payload: Payload, pc: Pc, sends: nat, slept: real, attemptAt: nat)

  datatype Disk = Disk(pending: map<FileName, Payload>, completed: seq<WindowId>)

  /** What a crash wipes. `hands` holds the payloads `retry_pending` has read and not yet enqueued. */
  datatype Memory = Memory(
    workers: map<WindowId, ThreadId>,
    threads: map<ThreadId, Worker>,
    events: map<WindowId, ThreadId>,
    signalled: set<ThreadId>,
    results: map<WindowId, string>,
    hands: set<Payload>,
    lock: Option<ThreadId>)

  /** Observations about the run; no step of the client reads them (thread identities apart). */
  datatype History = History(
    clock: nat,
    nextThread: ThreadId,
    known: set<WindowId>,
    handed: set<WindowId>,
    delivered: set<WindowId>,
    ackAt: map<WindowId, nat>)

  datatype State = State(disk: Disk, mem: Memory, hist: History)

  /** What a worker does next; `readOk`, `writeOk` and `ok` are outcomes of file operations. */
  datatype Action =
    | Register
    | BeginAttempt
    | Send(arrives: bool)
    | TimeOut
    | WakeUp
    | ReadResult
    | WriteCompleted(readOk: bool, writeOk: bool)
    | Unlink(ok: bool)
    | Wake
    | Exit

  datatype Step =
    | WindowClosed(payload: Payload, readOk: bool, writeOk: bool)
    | RetryRead(file: FileName)
    | RetryEnqueue(payload: Payload, readOk: bool, writeOk: bool)
    | Work(t: ThreadId, action: Action)
    | HandleAck(window: WindowId, status: string)
    | Crash

  const COMPLETED_LIMIT: nat := 500
  const EMPTY_MEMORY := Memory(map[], map[], map[], {}, map[], {}, None)

  /** A fresh install: nothing on disk, nothing in memory. */
  const INITIAL := State(Disk(map[], []), EMPTY_MEMORY, History(0, 0, {}, {}, {}, map[]))

  // ---------------------------------------------------------------- helpers of the source

  /** `_load_completed`: an unreadable file reads as the empty list. */
  function Load(disk: Disk, readOk: bool): seq<WindowId> {
    if readOk then disk.completed else []
  }

  /** The list that `_mark_completed` writes back. */
  function Marked(loaded: seq<WindowId>, w: WindowId): seq<WindowId> {
    LastOf(if w in loaded then loaded else loaded + [w], COMPLETED_LIMIT)
  }

  predicate Alive(mem: Memory, w: WindowId) {
    w in mem.workers && mem.workers[w] in mem.threads
  }

  /** A new worker thread for `p`. */
  function Spawned(mem: Memory, p: Payload, t: ThreadId): Memory {
    mem.(workers := mem.workers[p.windowId := t],
         threads := mem.threads[t := Worker(p, Registering, 0, 0.0, 0)])
  }

  /** `_enqueue_payload`: the new state, and whether it returned without raising. */
  function Enqueued(cfg: Config, s: State, p: Payload, readOk: bool, writeOk: bool): (State, bool) {
    if p.windowId in Load(s.disk, readOk) then (s, true)
    else if !writeOk then (s, false)
    else
      var stored := s.(disk := s.disk.(pending := s.disk.pending[cfg.key(p.windowId) := p]),
                       hist := s.hist.(known := s.hist.known + {p.windowId}));
      if Alive(s.mem, p.windowId) then (stored, true)
      else (stored.(mem := Spawned(s.mem, p, s.hist.nextThread),
                    hist := stored.hist.(nextThread := s.hist.nextThread + 1)), true)
  }

  predicate AcceptedStatus(status: string) {
    Lower(status) == "ack" || Lower(status) == "nack"
  }

  /** `handle_ack`: the new state, and the value returned. */
  function Acked(s: State, w: WindowId, status: string, readOk: bool): (State, bool) {
    if !AcceptedStatus(status) then (s, false)
    else if w !in s.mem.events then (s, w in Load(s.disk, readOk))
    else (s.(mem := s.mem.(results := s.mem.results[w := status], signalled := s.mem.signalled + {s.mem.events[w]}),
             hist := if status == "ack" then s.hist.(ackAt := s.hist.ackAt[w := s.hist.clock]) else s.hist), true)
  }

  /** What follows an attempt that brought no acknowledgement. */
  function AfterAttempt(cfg: Config, attempt: nat): Pc {
    if attempt < cfg.maxRetries then Sleeping(attempt) else Exiting
  }

  // ---------------------------------------------------------------- one worker

  /** The program points at which an action is the worker's next one. */
  predicate Ready(pc: Pc, a: Action) {
    match a
    case Register => pc.Registering?
    case BeginAttempt => pc.Starting?
    case Send(_) => pc.Sending?
    case TimeOut => pc.Waiting?
    case WakeUp => pc.Waiting?
    case ReadResult => pc.Reading?
    case WriteCompleted(_, _) => pc.Marking?
    case Unlink(_) => pc.Unlinking?
    case Wake => pc.Sleeping?
    case Exit => pc.Exiting?
  }

  /** The worker after the action; `seesAck` is the test of the result it reads. */
  function Act(cfg: Config, k: Worker, a: Action, seesAck: bool, clock: nat): Worker
    requires Ready(k.pc, a)
  {
    match a
    case Register => k.(pc := Starting(0))
    case BeginAttempt => k.(pc := Sending(k.pc.attempt), attemptAt := clock)
    case Send(_) => k.(pc := Waiting(k.pc.attempt), sends := k.sends + 1)
    case TimeOut => k.(pc := AfterAttempt(cfg, k.pc.attempt))
    case WakeUp => k.(pc := Reading(k.pc.attempt))
    case ReadResult => k.(pc := if seesAck then Marking else AfterAttempt(cfg, k.pc.attempt))
    case WriteCompleted(_, writeOk) => k.(pc := if writeOk then Unlinking else Exiting)
    case Unlink(_) => k.(pc := Exiting)
    case Wake => k.(pc := Starting(k.pc.attempt + 1), slept := k.slept + cfg.retryBase * (Pow2(k.pc.attempt) as real))
    case Exit => k
  }

  predicate SeesAck(mem: Memory, w: WindowId) {
    w in mem.results && mem.results[w] == "ack"
  }

  /** The actions that run inside the manager's lock. */
  predicate NeedsLock(a: Action) {
    a.Register? || a.BeginAttempt? || a.ReadResult? || a.WriteCompleted? || a.Exit?
  }

  predicate WorkEnabled(mem: Memory, t: ThreadId, a: Action) {
    && t in mem.threads && Ready(mem.threads[t].pc, a)
    && (NeedsLock(a) ==> mem.lock.None?)
    && (a.Unlink? ==> mem.lock == Some(t))
    && (a.TimeOut? ==> t !in mem.signalled)
    && (a.WakeUp? ==> t in mem.signalled)
  }

  function WorkMemory(cfg: Config, mem: Memory, t: ThreadId, a: Action, clock: nat): Memory
    requires WorkEnabled(mem, t, a)
  {
    var w := mem.threads[t].payload.windowId;
    var acted := mem.(threads := mem.threads[t := Act(cfg, mem.threads[t], a, SeesAck(mem, w), clock)]);
    match a
    case Register => acted.(events := mem.events[w := t])
    case BeginAttempt => acted.(results := mem.results - {w})
    case WriteCompleted(_, writeOk) => if writeOk then acted.(lock := Some(t)) else acted
    case Unlink(_) => acted.(lock := None)
    case Exit => mem.(events := mem.events - {w}, results := mem.results - {w}, threads := mem.threads - {t})
    case _ => acted
  }

  function WorkDisk(cfg: Config, disk: Disk, w: WindowId, a: Action): Disk {
    match a
    case WriteCompleted(readOk, writeOk) =>
      if writeOk then disk.(completed := Marked(Load(disk, readOk), w)) else disk
    case Unlink(ok) => if ok then disk.(pending := disk.pending - {cfg.key(w)}) else disk
    case _ => disk
  }

  // ---------------------------------------------------------------- the step relation

  predicate Enabled(s: State, step: Step) {
    match step
    case WindowClosed(_, _, _) => s.mem.lock.None?
    case RetryRead(f) => f in s.disk.pending
    case RetryEnqueue(p, _, _) => s.mem.lock.None? && p in s.mem.hands
    case Work(t, a) => WorkEnabled(s.mem, t, a)
    case HandleAck(_, _) => s.mem.lock.None?
    case Crash => true
  }

  function Effect(cfg: Config, s: State, step: Step): State
    requires Enabled(s, step)
  {
    match step
    case WindowClosed(p, readOk, writeOk) =>
      var (s', returned) := Enqueued(cfg, s, p, readOk, writeOk);
      if returned then s'.(hist := s'.hist.(handed := s'.hist.handed + {p.windowId})) else s'
    case RetryRead(f) => s.(mem := s.mem.(hands := s.mem.hands + {s.disk.pending[f]}))
    case RetryEnqueue(p, readOk, writeOk) =>
      var s' := Enqueued(cfg, s, p, readOk, writeOk).0;
      s'.(mem := s'.mem.(hands := s'.mem.hands - {p}))
    case Work(t, a) =>
      var w := s.mem.threads[t].payload.windowId;
      State(WorkDisk(cfg, s.disk, w, a), WorkMemory(cfg, s.mem, t, a, s.hist.clock),
            if a.Send? && a.arrives then s.hist.(delivered := s.hist.delivered + {w}) else s.hist)
    case HandleAck(w, status) => Acked(s, w, status, true).0
    case Crash => s.(mem := EMPTY_MEMORY)
  }

  function Next(cfg: Config, s: State, step: Step): State
    requires Enabled(s, step)
  {
    var s' := Effect(cfg, s, step);
    s'.(hist := s'.hist.(clock := s.hist.clock + 1))
  }

  /** The state after performing `steps` from a fresh install, if each is enabled in turn. */
  function Run(cfg: Config, steps: seq<Step>): Option<State>
    decreases |steps|
  {
    if steps == [] then Some(INITIAL)
    else
      var before := Run(cfg, steps[..|steps| - 1]);
      if before.Some? && Enabled(before.value, steps[|steps| - 1])
      then Some(Next(cfg, before.value, steps[|steps| - 1])) else None
  }

  // ---------------------------------------------------------------- invariants

  /** `w` is safe on disk: its pending file is there and names it. */
  predicate Stored(cfg: Config, disk: Disk, w: WindowId) {
    cfg.key(w) in disk.pending && disk.pending[cfg.key(w)].windowId == w
  }

  /** Another window was given the same file name. */
  ghost predicate Clash(cfg: Config, known: set<WindowId>, w: WindowId) {
    exists w' :: w' in known && w' != w && cfg.key(w') == cfg.key(w)
  }

  ghost predicate Safe(cfg: Config, disk: Disk, h: History, w: WindowId) {
    w in h.ackAt || Stored(cfg, disk, w) || Clash(cfg, h.known, w)
  }

  ghost predicate DiskInv(cfg: Config, disk: Disk, h: History) {
    && (forall f :: f in disk.pending ==>
          cfg.key(disk.pending[f].windowId) == f && disk.pending[f].windowId in h.known)
    && (forall w :: w in disk.completed ==> w in h.ackAt)
    && NoDup(disk.completed) && |disk.completed| <= COMPLETED_LIMIT
    && (forall w :: w in h.handed ==> Safe(cfg, disk, h, w))
  }

  ghost predicate ThreadOk(mem: Memory, h: History, t: ThreadId)
    requires t in mem.threads
  {
    var w := mem.threads[t].payload.windowId;
    && t < h.nextThread && w in h.known
    && w in mem.workers && mem.workers[w] == t
    && (mem.threads[t].pc.Registering? || (w in mem.events && mem.events[w] == t))
    && (mem.threads[t].pc.Unlinking? <==> mem.lock == Some(t))
  }

  ghost predicate EventOk(mem: Memory, w: WindowId)
    requires w in mem.events
  {
    var t := mem.events[w];
    t in mem.threads && mem.threads[t].payload.windowId == w && !mem.threads[t].pc.Registering?
  }

  /** The worker table, the event table and the lock describe exactly the live threads. */
  ghost predicate ThreadInv(mem: Memory, h: History) {
    && (forall t :: t in mem.threads ==> ThreadOk(mem, h, t))
    && (forall w :: w in mem.events ==> EventOk(mem, w))
    && (mem.lock.Some? ==> mem.lock.value in mem.threads)
  }

  /** An acknowledgement that the worker can still act on was handled after its latest attempt began. */
  ghost predicate FreshOk(mem: Memory, h: History, k: Worker) {
    var w := k.payload.windowId;
    && k.attemptAt <= h.clock
    && ((k.pc.Sending? || k.pc.Waiting? || k.pc.Reading?) ==>
          k.attemptAt < h.clock && (SeesAck(mem, w) ==> w in h.ackAt && k.attemptAt < h.ackAt[w]))
    && (k.pc.Marking? || k.pc.Unlinking? ==> w in h.ackAt && k.attemptAt < h.ackAt[w])
  }

  ghost predicate FreshInv(mem: Memory, h: History) {
    && (forall w :: w in h.ackAt ==> h.ackAt[w] < h.clock)
    && (forall t :: t in mem.threads ==> FreshOk(mem, h, mem.threads[t]))
  }

  /** The time slept before attempt number `attempt`. */
  function Backoff(cfg: Config, attempt: nat): real {
    cfg.retryBase * ((Pow2(attempt) - 1) as real)
  }

  ghost predicate EffortOk(cfg: Config, k: Worker) {
    match k.pc
    case Registering => k.sends == 0 && k.slept == 0.0
    case Starting(a) => a <= cfg.maxRetries && k.sends == a && k.slept == Backoff(cfg, a)
    case Sending(a) => a <= cfg.maxRetries && k.sends == a && k.slept == Backoff(cfg, a)
    case Waiting(a) => a <= cfg.maxRetries && k.sends == a + 1 && k.slept == Backoff(cfg, a)
    case Reading(a) => a <= cfg.maxRetries && k.sends == a + 1 && k.slept == Backoff(cfg, a)
    case Sleeping(a) => a < cfg.maxRetries && k.sends == a + 1 && k.slept == Backoff(cfg, a)
    case _ => 1 <= k.sends <= cfg.maxRetries + 1 && k.slept == Backoff(cfg, k.sends - 1)
  }

  ghost predicate EffortInv(cfg: Config, mem: Memory) {
    forall t :: t in mem.threads ==> EffortOk(cfg, mem.threads[t])
  }

  ghost predicate Inv(cfg: Config, s: State) {
    && DiskInv(cfg, s.disk, s.hist)
    && (forall p :: p in s.mem.hands ==> p.windowId in s.hist.known)
    && ThreadInv(s.mem, s.hist)
    && FreshInv(s.mem, s.hist)
    && EffortInv(cfg, s.mem)
  }

  lemma {:induction false} MarkedKeepsShape(loaded: seq<WindowId>, w: WindowId)
    requires NoDup(loaded) && |loaded| <= COMPLETED_LIMIT
    ensures NoDup(Marked(loaded, w)) && |Marked(loaded, w)| <= COMPLETED_LIMIT
    ensures w in Marked(loaded, w)
    ensures forall v :: v in Marked(loaded, w) ==> v in loaded || v == w
  {
    var all := if w in loaded then loaded else loaded + [w];
    if w !in loaded {
      assert all[|all| - 1] == w;
      if |all| > COMPLETED_LIMIT {
        var cut := all[|all| - COMPLETED_LIMIT..];
        assert cut[|cut| - 1] == w;
      }
    }
  }

  /** More history never makes a window less safe. */
  lemma {:induction false} SafeStays(cfg: Config, disk: Disk, h: History, h': History, w: WindowId)
    requires Safe(cfg, disk, h, w)
    requires h.known <= h'.known && h.ackAt.Keys <= h'.ackAt.Keys
    ensures Safe(cfg, disk, h', w)
  {
    if w !in h.ackAt && !Stored(cfg, disk, w) {
      var w' :| w' in h.known && w' != w && cfg.key(w') == cfg.key(w);
      assert w' in h'.known;
    }
  }

  lemma {:induction false} DiskInvStays(cfg: Config, disk: Disk, h: History, h': History)
    requires DiskInv(cfg, disk, h)
    requires h.known <= h'.known && h.ackAt.Keys <= h'.ackAt.Keys && h'.handed == h.handed
    ensures DiskInv(cfg, disk, h')
  {
    forall w | w in h'.handed
      ensures Safe(cfg, disk, h', w)
    {
      SafeStays(cfg, disk, h, h', w);
    }
  }

  lemma {:induction false} EnqueueKeepsDisk(cfg: Config, s: State, p: Payload, readOk: bool, writeOk: bool)
    requires DiskInv(cfg, s.disk, s.hist)
    ensures var (s', returned) := Enqueued(cfg, s, p, readOk, writeOk);
            && DiskInv(cfg, s'.disk, s'.hist)
            && (returned ==> Safe(cfg, s'.disk, s'.hist, p.windowId))
            && s.hist.known <= s'.hist.known
  {
    var (s', returned) := Enqueued(cfg, s, p, readOk, writeOk);
    if p.windowId !in Load(s.disk, readOk) && writeOk {
      forall w | w in s'.hist.handed
        ensures Safe(cfg, s'.disk, s'.hist, w)
      {
        if w != p.windowId && cfg.key(w) == cfg.key(p.windowId) {
          assert p.windowId in s'.hist.known;
        } else if w != p.windowId && Clash(cfg, s.hist.known, w) {
          var w' :| w' in s.hist.known && w' != w && cfg.key(w') == cfg.key(w);
          assert w' in s'.hist.known;
        }
      }
    }
  }

  lemma {:induction false} EnqueueKeepsThreads(cfg: Config, s: State, p: Payload, readOk: bool, writeOk: bool)
    requires ThreadInv(s.mem, s.hist) && FreshInv(s.mem, s.hist) && EffortInv(cfg, s.mem)
    ensures var s' := Enqueued(cfg, s, p, readOk, writeOk).0;
            && ThreadInv(s'.mem, s'.hist) && FreshInv(s'.mem, s'.hist) && EffortInv(cfg, s'.mem)
            && s'.mem.hands == s.mem.hands
  {
  }

  lemma {:induction false} AckKeepsThreads(cfg: Config, s: State, w: WindowId, status: string)
    requires ThreadInv(s.mem, s.hist) && FreshInv(s.mem, s.hist)
    ensures var s' := Acked(s, w, status, true).0;
            ThreadInv(s'.mem, s'.hist) && FreshInv(s'.mem, s'.hist.(clock := s.hist.clock + 1))
  {
    var s' := Acked(s, w, status, true).0;
    forall t | t in s'.mem.threads
      ensures ThreadOk(s'.mem, s'.hist, t)
      ensures FreshOk(s'.mem, s'.hist.(clock := s.hist.clock + 1), s'.mem.threads[t])
    {
      assert ThreadOk(s.mem, s.hist, t) && FreshOk(s.mem, s.hist, s.mem.threads[t]);
    }
    forall v | v in s'.mem.events
      ensures EventOk(s'.mem, v)
    {
      assert EventOk(s.mem, v);
    }
  }

  lemma {:induction false} AckKeepsInv(cfg: Config, s: State, w: WindowId, status: string)
    requires Inv(cfg, s) && Enabled(s, HandleAck(w, status))
    ensures Inv(cfg, Next(cfg, s, HandleAck(w, status)))
  {
    var s' := Next(cfg, s, HandleAck(w, status));
    DiskInvStays(cfg, s.disk, s.hist, s'.hist);
    AckKeepsThreads(cfg, s, w, status);
    forall t | t in s'.mem.threads
      ensures ThreadOk(s'.mem, s'.hist, t)
    {
      assert ThreadOk(s'.mem, Acked(s, w, status, true).0.hist, t);
    }
  }

  lemma {:induction false} ActKeepsEffort(cfg: Config, k: Worker, a: Action, seesAck: bool, clock: nat)
    requires Ready(k.pc, a) && EffortOk(cfg, k)
    ensures EffortOk(cfg, Act(cfg, k, a, seesAck, clock))
  {
    if a.Wake? {
      var p := Pow2(k.pc.attempt);
      assert Pow2(k.pc.attempt + 1) == 2 * p;
      assert ((2 * p - 1) as real) == ((p - 1) as real) + (p as real);
    }
  }

  lemma {:induction false} WorkKeepsDisk(cfg: Config, s: State, t: ThreadId, a: Action)
    requires Inv(cfg, s) && WorkEnabled(s.mem, t, a)
    ensures DiskInv(cfg, WorkDisk(cfg, s.disk, s.mem.threads[t].payload.windowId, a), s.hist)
  {
    var w := s.mem.threads[t].payload.windowId;
    assert ThreadOk(s.mem, s.hist, t) && FreshOk(s.mem, s.hist, s.mem.threads[t]);
    if a.WriteCompleted? {
      MarkedKeepsShape(Load(s.disk, a.readOk), w);
      forall v | v in s.hist.handed
        ensures Safe(cfg, WorkDisk(cfg, s.disk, w, a), s.hist, v)
      {
        assert Safe(cfg, s.disk, s.hist, v);
      }
    }
    if a.Unlink? {
      forall v | v in s.hist.handed
        ensures Safe(cfg, WorkDisk(cfg, s.disk, w, a), s.hist, v)
      {
        assert Safe(cfg, s.disk, s.hist, v);
        if v != w && cfg.key(v) == cfg.key(w) {
          assert w in s.hist.known;
        }
      }
    }
  }

  /** The acting thread itself stays described by the tables. */
  lemma {:induction false} ActorStaysOk(cfg: Config, s: State, t: ThreadId, a: Action)
    requires ThreadInv(s.mem, s.hist) && WorkEnabled(s.mem, t, a) && !a.Exit?
    ensures ThreadOk(WorkMemory(cfg, s.mem, t, a, s.hist.clock), s.hist, t)
  {
    assert ThreadOk(s.mem, s.hist, t);
  }

  lemma {:induction false} BystanderStaysOk(cfg: Config, s: State, t: ThreadId, a: Action, u: ThreadId)
    requires ThreadInv(s.mem, s.hist) && WorkEnabled(s.mem, t, a)
    requires u in s.mem.threads && u != t
    ensures ThreadOk(WorkMemory(cfg, s.mem, t, a, s.hist.clock), s.hist, u)
  {
    assert ThreadOk(s.mem, s.hist, t) && ThreadOk(s.mem, s.hist, u);
  }

  lemma {:induction false} WorkKeepsThreads(cfg: Config, s: State, t: ThreadId, a: Action)
    requires ThreadInv(s.mem, s.hist) && WorkEnabled(s.mem, t, a)
    ensures ThreadInv(WorkMemory(cfg, s.mem, t, a, s.hist.clock), s.hist)
  {
    var m' := WorkMemory(cfg, s.mem, t, a, s.hist.clock);
    forall u | u in m'.threads
      ensures ThreadOk(m', s.hist, u)
    {
      if u == t { ActorStaysOk(cfg, s, t, a); } else { BystanderStaysOk(cfg, s, t, a, u); }
    }
    assert ThreadOk(s.mem, s.hist, t);
    forall w | w in m'.events
      ensures EventOk(m', w)
    {
      assert w in s.mem.events ==> EventOk(s.mem, w);
    }
  }

  lemma {:induction false} WorkKeepsFresh(cfg: Config, s: State, t: ThreadId, a: Action)
    requires ThreadInv(s.mem, s.hist) && FreshInv(s.mem, s.hist) && WorkEnabled(s.mem, t, a)
    ensures FreshInv(WorkMemory(cfg, s.mem, t, a, s.hist.clock), s.hist.(clock := s.hist.clock + 1))
  {
    var m' := WorkMemory(cfg, s.mem, t, a, s.hist.clock);
    var h' := s.hist.(clock := s.hist.clock + 1);
    forall u | u in m'.threads
      ensures FreshOk(m', h', m'.threads[u])
    {
      assert FreshOk(s.mem, s.hist, s.mem.threads[u]);
      assert ThreadOk(s.mem, s.hist, t) && ThreadOk(s.mem, s.hist, u);
    }
  }

  lemma {:induction false} WorkKeepsEffort(cfg: Config, mem: Memory, t: ThreadId, a: Action, clock: nat)
    requires EffortInv(cfg, mem) && WorkEnabled(mem, t, a)
    ensures EffortInv(cfg, WorkMemory(cfg, mem, t, a, clock))
  {
    ActKeepsEffort(cfg, mem.threads[t], a, SeesAck(mem, mem.threads[t].payload.windowId), clock);
  }

  lemma {:induction false} WorkKeepsInv(cfg: Config, s: State, t: ThreadId, a: Action)
    requires Inv(cfg, s) && WorkEnabled(s.mem, t, a)
    ensures Inv(cfg, Next(cfg, s, Work(t, a)))
  {
    var s' := Next(cfg, s, Work(t, a));
    var w := s.mem.threads[t].payload.windowId;
    WorkKeepsDisk(cfg, s, t, a);
    DiskInvStays(cfg, s'.disk, s.hist, s'.hist);
    WorkKeepsThreads(cfg, s, t, a);
    WorkKeepsFresh(cfg, s, t, a);
    WorkKeepsEffort(cfg, s.mem, t, a, s.hist.clock);
    assert s'.mem.hands == s.mem.hands && s'.hist.known == s.hist.known;
  }

  lemma {:induction false} EnqueueKeepsInv(cfg: Config, s: State, p: Payload, readOk: bool, writeOk: bool)
    requires Inv(cfg, s)
    ensures var (s', returned) := Enqueued(cfg, s, p, readOk, writeOk);
            Inv(cfg, s') && (returned ==> Safe(cfg, s'.disk, s'.hist, p.windowId))
  {
    EnqueueKeepsDisk(cfg, s, p, readOk, writeOk);
    EnqueueKeepsThreads(cfg, s, p, readOk, writeOk);
  }

  /** Handing over a window that is safe, time passing and payloads put down keep the invariant. */
  lemma {:induction false} HistoryKeepsInv(cfg: Config, s: State, s': State)
    requires Inv(cfg, s) && s'.disk == s.disk
    requires s'.mem == s.mem.(hands := s'.mem.hands) && s'.mem.hands <= s.mem.hands
    requires s'.hist == s.hist.(clock := s.hist.clock + 1, handed := s'.hist.handed)
    requires forall w :: w in s'.hist.handed ==> w in s.hist.handed || Safe(cfg, s.disk, s.hist, w)
    ensures Inv(cfg, s')
  {
    forall w | w in s'.hist.handed
      ensures Safe(cfg, s'.disk, s'.hist, w)
    {
      SafeStays(cfg, s.disk, s.hist, s'.hist, w);
    }
    forall t | t in s'.mem.threads
      ensures ThreadOk(s'.mem, s'.hist, t)
    {
      assert ThreadOk(s.mem, s.hist, t);
    }
    forall w | w in s'.mem.events
      ensures EventOk(s'.mem, w)
    {
      assert EventOk(s.mem, w);
    }
    forall t | t in s'.mem.threads
      ensures FreshOk(s'.mem, s'.hist, s'.mem.threads[t])
    {
      assert FreshOk(s.mem, s.hist, s.mem.threads[t]);
    }
  }

  /** Every step, crashes and file failures included, keeps the invariant. */
  lemma {:induction false} StepKeepsInv(cfg: Config, s: State, step: Step)
    requires Inv(cfg, s) && Enabled(s, step)
    ensures Inv(cfg, Next(cfg, s, step))
  {
    match step
    case WindowClosed(p, readOk, writeOk) =>
      EnqueueKeepsInv(cfg, s, p, readOk, writeOk);
      HistoryKeepsInv(cfg, Enqueued(cfg, s, p, readOk, writeOk).0, Next(cfg, s, step));
    case RetryEnqueue(p, readOk, writeOk) =>
      EnqueueKeepsInv(cfg, s, p, readOk, writeOk);
      HistoryKeepsInv(cfg, Enqueued(cfg, s, p, readOk, writeOk).0, Next(cfg, s, step));
    case Work(t, a) => WorkKeepsInv(cfg, s, t, a);
    case HandleAck(w, status) => AckKeepsInv(cfg, s, w, status);
    case RetryRead(_) =>
    case Crash =>
  }

  lemma {:induction false} RunKeepsInv(cfg: Config, steps: seq<Step>)
    ensures Run(cfg, steps).Some? ==> Inv(cfg, Run(cfg, steps).value)
    decreases |steps|
  {
    if steps != [] {
      RunKeepsInv(cfg, steps[..|steps| - 1]);
      if Run(cfg, steps).Some? {
        StepKeepsInv(cfg, Run(cfg, steps[..|steps| - 1]).value, steps[|steps| - 1]);
      }
    }
  }

  // ---------------------------------------------------------------- what the history records

  /** `t` began its latest attempt in step `at`. */
  ghost predicate BeganAt(steps: seq<Step>, t: ThreadId, at: nat) {
    && at < |steps| && steps[at] == Work(t, BeginAttempt)
    && (forall i :: at < i < |steps| ==> steps[i] != Work(t, BeginAttempt))
  }

  ghost predicate Truthful(s: State, steps: seq<Step>) {
    && s.hist.clock == |steps|
    && (forall w :: w in s.hist.ackAt ==> s.hist.ackAt[w] < |steps| && steps[s.hist.ackAt[w]] == HandleAck(w, "ack"))
    && (forall t :: t in s.mem.threads ==>
          t < s.hist.nextThread
          && (s.mem.threads[t].pc.Registering? || s.mem.threads[t].pc == Starting(0)
              || BeganAt(steps, t, s.mem.threads[t].attemptAt)))
  }

  lemma {:induction false} WorkerHistory(cfg: Config, s: State, steps: seq<Step>, step: Step, t: ThreadId)
    requires Truthful(s, steps) && Enabled(s, step)
    requires t in Next(cfg, s, step).mem.threads
    ensures var k := Next(cfg, s, step).mem.threads[t];
            && t < Next(cfg, s, step).hist.nextThread
            && (k.pc.Registering? || k.pc == Starting(0) || BeganAt(steps + [step], t, k.attemptAt))
  {
    var all := steps + [step];
    var k := Next(cfg, s, step).mem.threads[t];
    assert all[|steps|] == step;
    if step == Work(t, BeginAttempt) {
      assert k.attemptAt == |steps|;
    } else if t in s.mem.threads && !s.mem.threads[t].pc.Registering? && s.mem.threads[t].pc != Starting(0) {
      assert BeganAt(steps, t, s.mem.threads[t].attemptAt);
      assert k.attemptAt == s.mem.threads[t].attemptAt;
      assert all[k.attemptAt] == steps[k.attemptAt];
    }
  }

  lemma {:induction false} StepKeepsTruth(cfg: Config, s: State, steps: seq<Step>, step: Step)
    requires Truthful(s, steps) && Enabled(s, step)
    ensures Truthful(Next(cfg, s, step), steps + [step])
  {
    var s' := Next(cfg, s, step);
    var all := steps + [step];
    forall w | w in s'.hist.ackAt
      ensures s'.hist.ackAt[w] < |all| && all[s'.hist.ackAt[w]] == HandleAck(w, "ack")
    {
      if w in s.hist.ackAt && s'.hist.ackAt[w] == s.hist.ackAt[w] {
        assert all[s.hist.ackAt[w]] == steps[s.hist.ackAt[w]];
      } else {
        assert all[|steps|] == step;
      }
    }
    forall t | t in s'.mem.threads
      ensures t < s'.hist.nextThread
      ensures s'.mem.threads[t].pc.Registering? || s'.mem.threads[t].pc == Starting(0)
              || BeganAt(all, t, s'.mem.threads[t].attemptAt)
    {
      WorkerHistory(cfg, s, steps, step, t);
    }
  }

  lemma {:induction false} RunIsTruthful(cfg: Config, steps: seq<Step>)
    ensures Run(cfg, steps).Some? ==> Truthful(Run(cfg, steps).value, steps)
    decreases |steps|
  {
    if steps != [] && Run(cfg, steps).Some? {
      var n := |steps| - 1;
      RunIsTruthful(cfg, steps[..n]);
      StepKeepsTruth(cfg, Run(cfg, steps[..n]).value, steps[..n], steps[n]);
      assert steps[..n] + [steps[n]] == steps;
    }
  }

  // ---------------------------------------------------------------- main results

  /** The server's "ack" for `w` was handled in one of the steps. */
  ghost predicate AckHandled(steps: seq<Step>, w: WindowId) {
    exists i :: 0 <= i < |steps| && steps[i] == HandleAck(w, "ack")
  }

  /**
   No window is lost: in every run, whatever crashes, fails, times out or is refused, a window that
   was handed over is in its pending file or was acknowledged, unless another window
   was given the same file name.
   */
  lemma {:induction false} NoWindowLost(cfg: Config, steps: seq<Step>, w: WindowId)
    requires Run(cfg, steps).Some? && w in Run(cfg, steps).value.hist.handed
    requires !Clash(cfg, Run(cfg, steps).value.hist.known, w)
    ensures Stored(cfg, Run(cfg, steps).value.disk, w) || AckHandled(steps, w)
  {
    RunKeepsInv(cfg, steps);
    RunIsTruthful(cfg, steps);
    var h := Run(cfg, steps).value.hist;
    if w in h.ackAt {
      assert steps[h.ackAt[w]] == HandleAck(w, "ack");
    }
  }

  /** The proviso of `NoWindowLost` is needed: with one file name for all, the second window replaces the first. */
  lemma {:induction false} ClashLosesWindow(p: Payload, q: Payload)
    requires p.windowId != q.windowId
    ensures var cfg := Config(3, 5.0, _ => "same.json");
            var steps := [WindowClosed(p, true, true), WindowClosed(q, true, true)];
            && Run(cfg, steps).Some? && p.windowId in Run(cfg, steps).value.hist.handed
            && !Stored(cfg, Run(cfg, steps).value.disk, p.windowId) && !AckHandled(steps, p.windowId)
  {
    var cfg := Config(3, 5.0, _ => "same.json");
    var first := [WindowClosed(p, true, true)];
    var steps := first + [WindowClosed(q, true, true)];
    assert steps[..1] == first && first[..0] == [];
    assert Run(cfg, first) == Some(Next(cfg, INITIAL, first[0]));
  }

  /**
   A window enters `completed` only when a worker for it writes the list, and only after an "ack"
   for it was handled later than the start of that worker's latest attempt.
   */
  lemma {:induction false} CompletedOnlyByFreshAck(cfg: Config, steps: seq<Step>, step: Step, w: WindowId)
    requires Run(cfg, steps).Some? && Enabled(Run(cfg, steps).value, step)
    requires w !in Run(cfg, steps).value.disk.completed
    requires w in Next(cfg, Run(cfg, steps).value, step).disk.completed
    ensures step.Work? && step.action.WriteCompleted?
    ensures exists began: nat, acked: nat :: BeganAt(steps, step.t, began) && began < acked < |steps| && steps[acked] == HandleAck(w, "ack")
  {
    RunKeepsInv(cfg, steps);
    RunIsTruthful(cfg, steps);
    var s := Run(cfg, steps).value;
    var k := s.mem.threads[step.t];
    assert FreshOk(s.mem, s.hist, k);
    var loaded := Load(s.disk, step.action.readOk);
    MarkedKeepsShape(loaded, k.payload.windowId);
    assert k.payload.windowId == w;
    assert BeganAt(steps, step.t, k.attemptAt);
    assert k.attemptAt < s.hist.ackAt[w] < |steps|;
  }

  /** The list of completed windows never repeats one, never outgrows its limit and holds acknowledged windows only. */
  lemma {:induction false} CompletedListShape(cfg: Config, steps: seq<Step>)
    requires Run(cfg, steps).Some?
    ensures var completed := Run(cfg, steps).value.disk.completed;
            && NoDup(completed) && |completed| <= 500
            && (forall w :: w in completed ==> AckHandled(steps, w))
  {
    RunKeepsInv(cfg, steps);
    RunIsTruthful(cfg, steps);
    var s := Run(cfg, steps).value;
    forall w | w in s.disk.completed
      ensures AckHandled(steps, w)
    {
      assert steps[s.hist.ackAt[w]] == HandleAck(w, "ack");
    }
  }

  /** Two live workers never serve the same window. */
  lemma {:induction false} OneWorkerPerWindow(cfg: Config, steps: seq<Step>, t: ThreadId, u: ThreadId)
    requires Run(cfg, steps).Some?
    requires t in Run(cfg, steps).value.mem.threads && u in Run(cfg, steps).value.mem.threads
    requires Run(cfg, steps).value.mem.threads[t].payload.windowId == Run(cfg, steps).value.mem.threads[u].payload.windowId
    ensures t == u
  {
    RunKeepsInv(cfg, steps);
    var s := Run(cfg, steps).value;
    assert ThreadOk(s.mem, s.hist, t) && ThreadOk(s.mem, s.hist, u);
  }

  lemma {:induction false} Pow2Monotone(a: nat, b: nat)
    requires a <= b
    ensures Pow2(a) <= Pow2(b)
  {
    if a < b {
      Pow2Monotone(a, b - 1);
    }
  }

  lemma {:induction false} BackoffMonotone(cfg: Config, a: nat, b: nat)
    requires cfg.retryBase >= 0.0 && a <= b
    ensures 0.0 <= Backoff(cfg, a) <= Backoff(cfg, b)
  {
    Pow2Monotone(a, b);
    var x, y := (Pow2(a) - 1) as real, (Pow2(b) - 1) as real;
    assert 0.0 <= x <= y;
    assert cfg.retryBase * y - cfg.retryBase * x == cfg.retryBase * (y - x);
  }

  lemma {:induction false} WorkerEffort(cfg: Config, k: Worker)
    requires cfg.retryBase >= 0.0 && EffortOk(cfg, k)
    ensures k.sends <= cfg.maxRetries + 1 && k.slept <= Backoff(cfg, cfg.maxRetries)
  {
    match k.pc
    case Registering => BackoffMonotone(cfg, 0, cfg.maxRetries);
    case Starting(a) => BackoffMonotone(cfg, a, cfg.maxRetries);
    case Sending(a) => BackoffMonotone(cfg, a, cfg.maxRetries);
    case Waiting(a) => BackoffMonotone(cfg, a, cfg.maxRetries);
    case Reading(a) => BackoffMonotone(cfg, a, cfg.maxRetries);
    case Sleeping(a) => BackoffMonotone(cfg, a, cfg.maxRetries);
    case _ => BackoffMonotone(cfg, k.sends - 1, cfg.maxRetries);
  }

  lemma {:induction false} LiveWorkersAreOnBudget(cfg: Config, steps: seq<Step>, t: ThreadId)
    requires Run(cfg, steps).Some? && t in Run(cfg, steps).value.mem.threads
    ensures EffortOk(cfg, Run(cfg, steps).value.mem.threads[t])
  {
    RunKeepsInv(cfg, steps);
  }

  /** A worker sends at most once more than its retries and sleeps at most the full geometric backoff. */
  lemma {:induction false} WorkerEffortIsBounded(cfg: Config, steps: seq<Step>, t: ThreadId)
    requires cfg.retryBase >= 0.0
    requires Run(cfg, steps).Some? && t in Run(cfg, steps).value.mem.threads
    ensures Run(cfg, steps).value.mem.threads[t].sends <= cfg.maxRetries + 1
    ensures Run(cfg, steps).value.mem.threads[t].slept <= Backoff(cfg, cfg.maxRetries)
  {
    LiveWorkersAreOnBudget(cfg, steps, t);
    WorkerEffort(cfg, Run(cfg, steps).value.mem.threads[t]);
  }

  // ---------------------------------------------------------------- a worker gives up only after all its attempts

  function SendCount(steps: seq<Step>, t: ThreadId): nat {
    if steps == [] then 0
    else
      var last := steps[|steps| - 1];
      SendCount(steps[..|steps| - 1], t) + if last.Work? && last.t == t && last.action.Send? then 1 else 0
  }

  /** The worker went on to write the list of completed windows. */
  ghost predicate WroteList(steps: seq<Step>, t: ThreadId) {
    exists i :: 0 <= i < |steps| && steps[i].Work? && steps[i].t == t && steps[i].action.WriteCompleted?
  }

  ghost predicate Tally(cfg: Config, steps: seq<Step>, t: ThreadId, k: Worker) {
    && k.sends == SendCount(steps, t)
    && (k.pc.Unlinking? ==> WroteList(steps, t))
    && (k.pc.Exiting? && !WroteList(steps, t) ==> k.sends == cfg.maxRetries + 1 && k.slept == Backoff(cfg, cfg.maxRetries))
  }

  ghost predicate Tallied(cfg: Config, s: State, steps: seq<Step>) {
    && (forall i :: 0 <= i < |steps| && steps[i].Work? ==> steps[i].t < s.hist.nextThread)
    && (forall t :: t in s.mem.threads ==> Tally(cfg, steps, t, s.mem.threads[t]))
  }

  lemma {:induction false} SendCountSnoc(steps: seq<Step>, step: Step, t: ThreadId)
    ensures SendCount(steps + [step], t) == SendCount(steps, t) + if step.Work? && step.t == t && step.action.Send? then 1 else 0
    ensures WroteList(steps + [step], t) <==> WroteList(steps, t) || (step.Work? && step.t == t && step.action.WriteCompleted?)
  {
    var all := steps + [step];
    assert all[..|steps|] == steps && all[|steps|] == step;
    if WroteList(steps, t) {
      var i :| 0 <= i < |steps| && steps[i].Work? && steps[i].t == t && steps[i].action.WriteCompleted?;
      assert all[i] == steps[i];
    }
  }

  lemma {:induction false} NoSends(steps: seq<Step>, t: ThreadId)
    requires forall i :: 0 <= i < |steps| && steps[i].Work? ==> steps[i].t < t
    ensures SendCount(steps, t) == 0
  {
    if steps != [] {
      NoSends(steps[..|steps| - 1], t);
    }
  }

  lemma {:induction false} ActKeepsTally(cfg: Config, steps: seq<Step>, t: ThreadId, k: Worker, a: Action, seesAck: bool, clock: nat)
    requires Ready(k.pc, a) && !a.Exit? && EffortOk(cfg, k) && Tally(cfg, steps, t, k)
    ensures Tally(cfg, steps + [Work(t, a)], t, Act(cfg, k, a, seesAck, clock))
  {
    SendCountSnoc(steps, Work(t, a), t);
  }

  /** What a step does to one thread: it starts it, takes its next action, or leaves it alone. */
  lemma {:induction false} ThreadAfter(cfg: Config, s: State, step: Step, t: ThreadId)
    requires Enabled(s, step) && t in Next(cfg, s, step).mem.threads
    ensures var k' := Next(cfg, s, step).mem.threads[t];
            if t !in s.mem.threads then t == s.hist.nextThread && k'.sends == 0 && k'.pc.Registering?
            else if step.Work? && step.t == t then
              && !step.action.Exit? && WorkEnabled(s.mem, t, step.action)
              && k' == Act(cfg, s.mem.threads[t], step.action, SeesAck(s.mem, s.mem.threads[t].payload.windowId), s.hist.clock)
            else t == s.hist.nextThread || k' == s.mem.threads[t]
  {
  }

  lemma {:induction false} ThreadKeepsTally(cfg: Config, s: State, steps: seq<Step>, step: Step, t: ThreadId)
    requires EffortInv(cfg, s.mem) && Tallied(cfg, s, steps) && Enabled(s, step)
    requires t in Next(cfg, s, step).mem.threads && (t in s.mem.threads ==> t < s.hist.nextThread)
    ensures Tally(cfg, steps + [step], t, Next(cfg, s, step).mem.threads[t])
  {
    ThreadAfter(cfg, s, step, t);
    if t !in s.mem.threads {
      NoSends(steps, t);
      SendCountSnoc(steps, step, t);
    } else if step.Work? && step.t == t {
      ActKeepsTally(cfg, steps, t, s.mem.threads[t], step.action, SeesAck(s.mem, s.mem.threads[t].payload.windowId), s.hist.clock);
    } else {
      SendCountSnoc(steps, step, t);
    }
  }

  lemma {:induction false} RunKeepsTally(cfg: Config, steps: seq<Step>)
    requires Run(cfg, steps).Some?
    ensures Tallied(cfg, Run(cfg, steps).value, steps)
    decreases |steps|
  {
    if steps != [] {
      var front, step := steps[..|steps| - 1], steps[|steps| - 1];
      var s := Run(cfg, front).value;
      RunKeepsTally(cfg, front);
      RunKeepsInv(cfg, front);
      assert steps == front + [step];
      forall t | t in Next(cfg, s, step).mem.threads
        ensures Tally(cfg, steps, t, Next(cfg, s, step).mem.threads[t])
      {
        assert t in s.mem.threads ==> ThreadOk(s.mem, s.hist, t);
        ThreadKeepsTally(cfg, s, front, step, t);
      }
      if step.Work? {
        assert ThreadOk(s.mem, s.hist, step.t);
      }
    }
  }

  /**
   * In every run a worker has sent as often as it took its sending step, and one that ends without having gone on to
   * write the list has made all of its attempts and slept the full geometric backoff.
   */
  lemma {:induction false} WorkerGivesUpOnlyAtTheEnd(cfg: Config, steps: seq<Step>, t: ThreadId)
    requires Run(cfg, steps).Some? && t in Run(cfg, steps).value.mem.threads
    ensures var k := Run(cfg, steps).value.mem.threads[t];
            && k.sends == SendCount(steps, t)
            && (k.pc.Exiting? && !WroteList(steps, t) ==>
                  k.sends == cfg.maxRetries + 1 && k.slept == cfg.retryBase * ((Pow2(cfg.maxRetries) - 1) as real))
  {
    RunKeepsTally(cfg, steps);
    assert Tally(cfg, steps, t, Run(cfg, steps).value.mem.threads[t]);
  }

  /** In every run a live worker can take its next step, unless another one is between its two file operations. */
  lemma {:induction false} NoWorkerIsStuck(cfg: Config, steps: seq<Step>, t: ThreadId) returns (a: Action)
    requires Run(cfg, steps).Some? && t in Run(cfg, steps).value.mem.threads
    requires forall u :: u in Run(cfg, steps).value.mem.threads && Run(cfg, steps).value.mem.threads[u].pc.Unlinking? ==> u == t
    ensures Enabled(Run(cfg, steps).value, Work(t, a))
  {
    RunKeepsInv(cfg, steps);
    var s := Run(cfg, steps).value;
    assert ThreadOk(s.mem, s.hist, t);
    if s.mem.lock.Some? {
      assert ThreadOk(s.mem, s.hist, s.mem.lock.value);
    }
    match s.mem.threads[t].pc
    case Registering => a := Register;
    case Starting(_) => a := BeginAttempt;
    case Sending(_) => a := Send(true);
    case Waiting(_) => a := if t in s.mem.signalled then WakeUp else TimeOut;
    case Reading(_) => a := ReadResult;
    case Sleeping(_) => a := Wake;
    case Marking => a := WriteCompleted(true, true);
    case Unlinking => a := Unlink(true);
    case Exiting => a := Exit;
  }

  // ---------------------------------------------------------------- what is returned and raised

  /** "ack" or "nack" in any mixture of cases. */
  predicate SaysAckOrNack(status: string) {
    || (|status| == 3 && status[0] in "aA" && status[1] in "cC" && status[2] in "kK")
    || (|status| == 4 && status[0] in "nN" && status[1] in "aA" && status[2] in "cC" && status[3] in "kK")
  }

  lemma {:induction false} AcceptedExactly(status: string)
    ensures AcceptedStatus(status) <==> SaysAckOrNack(status)
  {
    var lower := Lower(status);
    assert forall i :: 0 <= i < |status| ==> lower[i] == LowerChar(status[i]);
    if |status| == 3 {
      assert lower == [lower[0], lower[1], lower[2]];
    }
    if |status| == 4 {
      assert lower == [lower[0], lower[1], lower[2], lower[3]];
    }
  }

  /**
   * In every run `handle_ack` tells that it knows the window exactly if the status is "ack" or "nack", whatever the
   * case, and a registered worker serves the window or it is listed as completed.
   */
  lemma {:induction false} AckIsKnownExactly(cfg: Config, steps: seq<Step>, w: WindowId, status: string)
    requires Run(cfg, steps).Some?
    ensures var s := Run(cfg, steps).value;
            Acked(s, w, status, true).1 <==>
              SaysAckOrNack(status)
              && (w in s.disk.completed || exists t :: Serves(s.mem, t, w) && !s.mem.threads[t].pc.Registering?)
  {
    RunKeepsInv(cfg, steps);
    AcceptedExactly(status);
    var s := Run(cfg, steps).value;
    if w in s.mem.events {
      assert EventOk(s.mem, w);
      assert Serves(s.mem, s.mem.events[w], w);
    }
    forall t | Serves(s.mem, t, w)
      ensures ThreadOk(s.mem, s.hist, t)
    {
    }
  }

  /**
   * Handing a window over succeeds exactly if the window is read to be completed or its payload can be stored; then it
   * counts as handed, and in any case no other window does that did not before.
   */
  lemma {:induction false} HandingOverExactly(cfg: Config, s: State, p: Payload, readOk: bool, writeOk: bool)
    requires Enabled(s, WindowClosed(p, readOk, writeOk))
    ensures Enqueued(cfg, s, p, readOk, writeOk).1 <==> (readOk && p.windowId in s.disk.completed) || writeOk
    ensures Next(cfg, s, WindowClosed(p, readOk, writeOk)).hist.handed
            == s.hist.handed + if (readOk && p.windowId in s.disk.completed) || writeOk then {p.windowId} else {}
  {
  }

  /** The step leaves the window stored with this payload and served by one worker, a new one exactly if none was alive. */
  ghost predicate StoredAndServed(cfg: Config, s: State, s': State, p: Payload) {
    && cfg.key(p.windowId) in s'.disk.pending && s'.disk.pending[cfg.key(p.windowId)] == p
    && (exists t :: Serves(s'.mem, t, p.windowId))
    && (StartsWorker(s, s', p.windowId) <==> forall t :: !Serves(s.mem, t, p.windowId))
    && (forall t :: t in s.mem.threads ==> t in s'.mem.threads && s'.mem.threads[t] == s.mem.threads[t])
    && (forall t :: t in s'.mem.threads && t !in s.mem.threads ==> s'.mem.threads[t] == Worker(p, Registering, 0, 0.0, 0))
  }

  lemma {:induction false} EnqueueServes(cfg: Config, s: State, p: Payload, readOk: bool, writeOk: bool)
    requires Inv(cfg, s) && TableOk(s.mem, s.hist) && writeOk && !(readOk && p.windowId in s.disk.completed)
    ensures StoredAndServed(cfg, s, Enqueued(cfg, s, p, readOk, writeOk).0, p)
  {
    var w, s' := p.windowId, Enqueued(cfg, s, p, readOk, writeOk).0;
    AliveMeansServed(s, w);
    assert s.hist.nextThread in s.mem.threads ==> ThreadOk(s.mem, s.hist, s.hist.nextThread);
    if Alive(s.mem, w) {
      assert Serves(s.mem, s.mem.workers[w], w);
      assert Serves(s'.mem, s.mem.workers[w], w);
    } else {
      assert Serves(s'.mem, s.hist.nextThread, w);
    }
  }

  /** In every run, a hand-over or retry that stores a window not read to be completed leaves it stored and served. */
  lemma {:induction false} EnqueuedIsServed(cfg: Config, steps: seq<Step>, step: Step)
    requires Run(cfg, steps).Some? && Enabled(Run(cfg, steps).value, step)
    requires step.WindowClosed? || step.RetryEnqueue?
    requires step.writeOk && !(step.readOk && step.payload.windowId in Run(cfg, steps).value.disk.completed)
    ensures StoredAndServed(cfg, Run(cfg, steps).value, Next(cfg, Run(cfg, steps).value, step), step.payload)
  {
    RunKeepsInv(cfg, steps);
    RunKeepsTable(cfg, steps);
    var s := Run(cfg, steps).value;
    EnqueueServes(cfg, s, step.payload, step.readOk, step.writeOk);
    var s1, s' := Enqueued(cfg, s, step.payload, step.readOk, step.writeOk).0, Next(cfg, s, step);
    assert s'.mem.threads == s1.mem.threads && s'.disk == s1.disk;
    var t :| Serves(s1.mem, t, step.payload.windowId);
    assert Serves(s'.mem, t, step.payload.windowId);
    if StartsWorker(s, s1, step.payload.windowId) {
      var u :| Serves(s1.mem, u, step.payload.windowId) && u !in s.mem.threads;
      assert Serves(s'.mem, u, step.payload.windowId);
    }
    if StartsWorker(s, s', step.payload.windowId) {
      var u :| Serves(s'.mem, u, step.payload.windowId) && u !in s.mem.threads;
      assert Serves(s1.mem, u, step.payload.windowId);
    }
  }

  /**
   * The worker's two file operations: the list gains the window at its end, unless it is there, and loses the oldest
   * entries beyond 500; then the window's pending file goes, and no other.
   */
  lemma {:induction false} MarkingExactly(cfg: Config, s: State, t: ThreadId, readOk: bool)
    requires WorkEnabled(s.mem, t, WriteCompleted(readOk, true))
    ensures var w := s.mem.threads[t].payload.windowId;
            var loaded := if readOk then s.disk.completed else [];
            var disk' := Next(cfg, s, Work(t, WriteCompleted(readOk, true))).disk;
            && disk'.pending == s.disk.pending
            && exists oldest: seq<WindowId> :: oldest + disk'.completed == (if w in loaded then loaded else loaded + [w])
                                            && |disk'.completed| <= 500 && (oldest != [] ==> |disk'.completed| == 500)
  {
    var w := s.mem.threads[t].payload.windowId;
    var loaded := if readOk then s.disk.completed else [];
    var all := if w in loaded then loaded else loaded + [w];
    var kept := Next(cfg, s, Work(t, WriteCompleted(readOk, true))).disk.completed;
    var oldest := all[..|all| - |kept|];
    assert oldest + kept == all;
  }

  lemma {:induction false} UnlinkingExactly(cfg: Config, s: State, t: ThreadId, ok: bool)
    requires WorkEnabled(s.mem, t, Unlink(ok))
    ensures var w := s.mem.threads[t].payload.windowId;
            var disk' := Next(cfg, s, Work(t, Unlink(ok))).disk;
            && disk'.completed == s.disk.completed
            && (forall f :: f in disk'.pending <==> f in s.disk.pending && !(ok && f == cfg.key(w)))
            && (forall f :: f in disk'.pending ==> disk'.pending[f] == s.disk.pending[f])
  {
  }

  /** In every run, an accepted answer wakes the registered worker of its window, if it waits, and no other. */
  lemma {:induction false} AnswerWakesItsWorker(cfg: Config, steps: seq<Step>, w: WindowId, status: string)
    requires Run(cfg, steps).Some? && Enabled(Run(cfg, steps).value, HandleAck(w, status))
    ensures var s := Run(cfg, steps).value;
            var s' := Next(cfg, s, HandleAck(w, status));
            forall t :: t in s'.mem.threads && s'.mem.threads[t].pc.Waiting? ==>
              (WorkEnabled(s'.mem, t, WakeUp) <==> WorkEnabled(s.mem, t, WakeUp) || (SaysAckOrNack(status) && Serves(s.mem, t, w)))
  {
    RunKeepsInv(cfg, steps);
    AcceptedExactly(status);
    var s := Run(cfg, steps).value;
    assert w in s.mem.events ==> EventOk(s.mem, w);
    forall t | t in s.mem.threads
      ensures ThreadOk(s.mem, s.hist, t)
    {
    }
  }

  /**
   * After a crash at any moment of any run, reading a pending file back and enqueueing it gives its window a worker
   * that has not sent yet, unless the window is listed as completed.
   */
  lemma {:induction false} RestartResumesPending(cfg: Config, steps: seq<Step>, f: FileName)
    requires Run(cfg, steps).Some? && f in Run(cfg, steps).value.disk.pending
    ensures var s := Run(cfg, steps).value;
            var p := s.disk.pending[f];
            var again := steps + [Crash] + [RetryRead(f)] + [RetryEnqueue(p, true, true)];
            && Run(cfg, again).Some? && Run(cfg, again).value.disk == s.disk
            && (p.windowId !in s.disk.completed ==>
                  exists t :: t in Run(cfg, again).value.mem.threads
                              && Run(cfg, again).value.mem.threads[t] == Worker(p, Registering, 0, 0.0, 0))
  {
    RunKeepsInv(cfg, steps);
    var s := Run(cfg, steps).value;
    var p := s.disk.pending[f];
    var s1 := Next(cfg, s, Crash);
    OneStepMore(cfg, steps, Crash, s);
    var s2 := Next(cfg, s1, RetryRead(f));
    OneStepMore(cfg, steps + [Crash], RetryRead(f), s1);
    var s3 := Next(cfg, s2, RetryEnqueue(p, true, true));
    OneStepMore(cfg, steps + [Crash] + [RetryRead(f)], RetryEnqueue(p, true, true), s2);
    assert s.disk.pending[cfg.key(p.windowId) := p] == s.disk.pending;
    if p.windowId !in s.disk.completed {
      assert s3.mem.threads[s.hist.nextThread] == Worker(p, Registering, 0, 0.0, 0);
    }
  }

  // ---------------------------------------------------------------- completed windows

  /** A hand-over or a retry of the window that cannot read the list of completed ones and can store the payload. */
  predicate EnqueuesUnread(step: Step, w: WindowId) {
    (step.WindowClosed? || step.RetryEnqueue?) && step.payload.windowId == w && !step.readOk && step.writeOk
  }

  ghost predicate Serves(mem: Memory, t: ThreadId, w: WindowId) { t in mem.threads && mem.threads[t].payload.windowId == w }

  /** The step starts a worker for the window. */
  ghost predicate StartsWorker(s: State, s': State, w: WindowId) {
    exists t :: Serves(s'.mem, t, w) && t !in s.mem.threads
  }

  /** The table of workers names no other window's thread. */
  ghost predicate TableOk(mem: Memory, h: History) {
    forall w :: w in mem.workers ==> mem.workers[w] < h.nextThread && (mem.workers[w] in mem.threads ==> Serves(mem, mem.workers[w], w))
  }

  lemma {:induction false} EnqueueKeepsTable(cfg: Config, s: State, p: Payload, readOk: bool, writeOk: bool)
    requires TableOk(s.mem, s.hist) && ThreadInv(s.mem, s.hist)
    ensures var s' := Enqueued(cfg, s, p, readOk, writeOk).0; TableOk(s'.mem, s'.hist)
  {
  }

  lemma {:induction false} WorkKeepsTable(cfg: Config, s: State, t: ThreadId, a: Action)
    requires TableOk(s.mem, s.hist) && WorkEnabled(s.mem, t, a)
    ensures TableOk(WorkMemory(cfg, s.mem, t, a, s.hist.clock), s.hist)
  {
    var m' := WorkMemory(cfg, s.mem, t, a, s.hist.clock);
    assert m'.workers == s.mem.workers;
    assert forall u :: u in m'.threads ==> u in s.mem.threads && m'.threads[u].payload == s.mem.threads[u].payload;
  }

  lemma {:induction false} StepKeepsTable(cfg: Config, s: State, step: Step)
    requires TableOk(s.mem, s.hist) && ThreadInv(s.mem, s.hist) && Enabled(s, step)
    ensures TableOk(Next(cfg, s, step).mem, Next(cfg, s, step).hist)
  {
    match step
    case WindowClosed(p, readOk, writeOk) => EnqueueKeepsTable(cfg, s, p, readOk, writeOk);
    case RetryEnqueue(p, readOk, writeOk) => EnqueueKeepsTable(cfg, s, p, readOk, writeOk);
    case Work(t, a) => WorkKeepsTable(cfg, s, t, a);
    case _ =>
  }

  lemma {:induction false} RunKeepsTable(cfg: Config, steps: seq<Step>)
    requires Run(cfg, steps).Some?
    ensures TableOk(Run(cfg, steps).value.mem, Run(cfg, steps).value.hist)
    decreases |steps|
  {
    if steps != [] {
      var front := steps[..|steps| - 1];
      RunKeepsTable(cfg, front);
      RunKeepsInv(cfg, front);
      StepKeepsTable(cfg, Run(cfg, front).value, steps[|steps| - 1]);
    }
  }

  lemma {:induction false} AliveMeansServed(s: State, w: WindowId)
    requires ThreadInv(s.mem, s.hist) && TableOk(s.mem, s.hist)
    ensures Alive(s.mem, w) <==> exists t :: Serves(s.mem, t, w)
  {
    forall t | Serves(s.mem, t, w)
      ensures Alive(s.mem, w)
    {
      assert ThreadOk(s.mem, s.hist, t);
    }
  }

  lemma {:induction false} EnqueueOfCompleted(cfg: Config, s: State, p: Payload, readOk: bool, writeOk: bool, w: WindowId)
    requires Inv(cfg, s) && w in s.disk.completed
    ensures var s' := Enqueued(cfg, s, p, readOk, writeOk).0;
            && (StartsWorker(s, s', w) <==> p.windowId == w && !readOk && writeOk && !Alive(s.mem, w))
            && (Stored(cfg, s'.disk, w) && !Stored(cfg, s.disk, w) <==> p.windowId == w && !readOk && writeOk && !Stored(cfg, s.disk, w))
  {
    var s' := Enqueued(cfg, s, p, readOk, writeOk).0;
    if p.windowId == w && !readOk && writeOk && !Alive(s.mem, w) {
      assert s.hist.nextThread in s.mem.threads ==> ThreadOk(s.mem, s.hist, s.hist.nextThread);
      assert Serves(s'.mem, s.hist.nextThread, w);
    }
  }

  /**
   * In every run: a step starts a worker for a window that is listed as completed if and only if it enqueues the
   * window, cannot read the list and can store the payload, while no worker serves it. Exactly such a step also
   * stores it again.
   */
  lemma {:induction false} CompletedIsEnqueuedAgainExactly(cfg: Config, steps: seq<Step>, step: Step, w: WindowId)
    requires Run(cfg, steps).Some? && Enabled(Run(cfg, steps).value, step) && w in Run(cfg, steps).value.disk.completed
    ensures var s := Run(cfg, steps).value;
            var s' := Next(cfg, s, step);
            && (StartsWorker(s, s', w) <==> EnqueuesUnread(step, w) && forall t :: !Serves(s.mem, t, w))
            && (Stored(cfg, s'.disk, w) && !Stored(cfg, s.disk, w) <==> EnqueuesUnread(step, w) && !Stored(cfg, s.disk, w))
  {
    RunKeepsInv(cfg, steps);
    RunKeepsTable(cfg, steps);
    var s := Run(cfg, steps).value;
    match step
    case WindowClosed(p, readOk, writeOk) =>
      EnqueueOfCompleted(cfg, s, p, readOk, writeOk, w);
      AliveMeansServed(s, w);
    case RetryEnqueue(p, readOk, writeOk) =>
      EnqueueOfCompleted(cfg, s, p, readOk, writeOk, w);
      AliveMeansServed(s, w);
    case Work(t, a) =>
      assert forall u :: u in WorkMemory(cfg, s.mem, t, a, s.hist.clock).threads ==> u in s.mem.threads;
    case _ =>
  }

  /** `handle_ack` ignores case, the worker does not: without an exact "ack" nothing ever completes. */
  lemma {:induction false} OnlyExactAckCompletes(cfg: Config, steps: seq<Step>, w: WindowId)
    requires Run(cfg, steps).Some? && !AckHandled(steps, w)
    ensures w !in Run(cfg, steps).value.disk.completed
    ensures AcceptedStatus("ACK")
  {
    CompletedListShape(cfg, steps);
    var upper := "ACK";
    assert Lower(upper) == ['a', 'c', 'k'] == "ack";
  }

  /** The last status for `w` that `handle_ack` accepts among the steps after number `from`. */
  function LastStatus(steps: seq<Step>, w: WindowId, from: nat): Option<string> {
    if |steps| <= from + 1 then None
    else
      var last := steps[|steps| - 1];
      if last.HandleAck? && last.window == w && AcceptedStatus(last.status) then Some(last.status)
      else LastStatus(steps[..|steps| - 1], w, from)
  }

  function ResultOf(mem: Memory, w: WindowId): Option<string> {
    if w in mem.results then Some(mem.results[w]) else None
  }

  predicate InAttempt(pc: Pc) { pc.Sending? || pc.Waiting? || pc.Reading? }

  /** The result a worker would read is the last accepted status since its attempt began. */
  ghost predicate StatusOk(mem: Memory, steps: seq<Step>, t: ThreadId) {
    t in mem.threads && InAttempt(mem.threads[t].pc) ==>
      && mem.threads[t].attemptAt < |steps|
      && ResultOf(mem, mem.threads[t].payload.windowId)
         == LastStatus(steps, mem.threads[t].payload.windowId, mem.threads[t].attemptAt)
  }

  lemma {:induction false} LastStatusSnoc(steps: seq<Step>, step: Step, w: WindowId, from: nat)
    requires from < |steps|
    ensures LastStatus(steps + [step], w, from) ==
            if step.HandleAck? && step.window == w && AcceptedStatus(step.status) then Some(step.status) else LastStatus(steps, w, from)
  {
    assert (steps + [step])[..|steps|] == steps;
  }

  /** The worker's own actions: only the beginning of an attempt clears the result. */
  lemma {:induction false} WorkKeepsStatus(cfg: Config, s: State, steps: seq<Step>, u: ThreadId, a: Action, t: ThreadId)
    requires ThreadInv(s.mem, s.hist) && s.hist.clock == |steps| && WorkEnabled(s.mem, u, a) && StatusOk(s.mem, steps, t)
    ensures StatusOk(WorkMemory(cfg, s.mem, u, a, s.hist.clock), steps + [Work(u, a)], t)
  {
    var mem' := WorkMemory(cfg, s.mem, u, a, s.hist.clock);
    if t in mem'.threads && InAttempt(mem'.threads[t].pc) {
      var w := mem'.threads[t].payload.windowId;
      assert t in s.mem.threads && s.mem.threads[t].payload.windowId == w && ThreadOk(s.mem, s.hist, t) && ThreadOk(s.mem, s.hist, u);
      if u == t && a.BeginAttempt? {
        assert mem'.threads[t].attemptAt == |steps|;
      } else {
        LastStatusSnoc(steps, Work(u, a), w, s.mem.threads[t].attemptAt);
      }
    }
  }

  lemma {:induction false} AckKeepsStatus(s: State, steps: seq<Step>, w: WindowId, status: string, t: ThreadId)
    requires ThreadInv(s.mem, s.hist) && StatusOk(s.mem, steps, t)
    ensures StatusOk(Acked(s, w, status, true).0.mem, steps + [HandleAck(w, status)], t)
  {
    if t in s.mem.threads && InAttempt(s.mem.threads[t].pc) {
      assert ThreadOk(s.mem, s.hist, t);
      LastStatusSnoc(steps, HandleAck(w, status), s.mem.threads[t].payload.windowId, s.mem.threads[t].attemptAt);
    }
  }

  lemma {:induction false} StepKeepsStatus(cfg: Config, s: State, steps: seq<Step>, step: Step, t: ThreadId)
    requires ThreadInv(s.mem, s.hist) && s.hist.clock == |steps| && Enabled(s, step) && StatusOk(s.mem, steps, t)
    ensures StatusOk(Next(cfg, s, step).mem, steps + [step], t)
  {
    match step
    case Work(u, a) => WorkKeepsStatus(cfg, s, steps, u, a, t);
    case HandleAck(w, status) => AckKeepsStatus(s, steps, w, status, t);
    case _ =>
      if t in s.mem.threads && InAttempt(s.mem.threads[t].pc) {
        assert ThreadOk(s.mem, s.hist, t);
        LastStatusSnoc(steps, step, s.mem.threads[t].payload.windowId, s.mem.threads[t].attemptAt);
      }
  }

  lemma {:induction false} RunKeepsStatus(cfg: Config, steps: seq<Step>, t: ThreadId)
    requires Run(cfg, steps).Some?
    ensures StatusOk(Run(cfg, steps).value.mem, steps, t)
    decreases |steps|
  {
    if steps != [] {
      var n := |steps| - 1;
      RunKeepsStatus(cfg, steps[..n], t);
      RunKeepsInv(cfg, steps[..n]);
      RunIsTruthful(cfg, steps[..n]);
      StepKeepsStatus(cfg, Run(cfg, steps[..n]).value, steps[..n], steps[n], t);
      assert steps[..n] + [steps[n]] == steps;
    }
  }

  /**
   * In every run a worker that reads its result goes on to mark the window if and only if the last status handled
   * for the window since its attempt began, of those `handle_ack` accepts, is exactly "ack".
   */
  lemma {:induction false} ReadingMarksExactly(cfg: Config, steps: seq<Step>, t: ThreadId) returns (began: nat)
    requires Run(cfg, steps).Some? && Enabled(Run(cfg, steps).value, Work(t, ReadResult))
    ensures BeganAt(steps, t, began)
    ensures var s := Run(cfg, steps).value;
            && t in Next(cfg, s, Work(t, ReadResult)).mem.threads
            && (Next(cfg, s, Work(t, ReadResult)).mem.threads[t].pc.Marking?
                <==> LastStatus(steps, s.mem.threads[t].payload.windowId, began) == Some("ack"))
  {
    RunIsTruthful(cfg, steps);
    RunKeepsStatus(cfg, steps, t);
    began := Run(cfg, steps).value.mem.threads[t].attemptAt;
  }

  lemma {:induction false} OneStepMore(cfg: Config, steps: seq<Step>, step: Step, s: State)
    requires Run(cfg, steps) == Some(s) && Enabled(s, step)
    ensures Run(cfg, steps + [step]) == Some(Next(cfg, s, step))
  {
    assert (steps + [step])[..|steps|] == steps;
  }

  /** A window is handed over and its worker sends it. */
  function SentSteps(p: Payload): seq<Step> {
    [WindowClosed(p, true, true), Work(0, Register), Work(0, BeginAttempt), Work(0, Send(true))]
  }

  lemma {:induction false} SentWindow(cfg: Config, p: Payload)
    ensures var k := Worker(p, Waiting(0), 1, 0.0, 2);
            var h := History(4, 1, {p.windowId}, {p.windowId}, {p.windowId}, map[]);
            Run(cfg, SentSteps(p)) == Some(State(Disk(map[cfg.key(p.windowId) := p], []),
              Memory(map[p.windowId := 0], map[0 := k], map[p.windowId := 0], {}, map[], {}, None), h))
  {
    var a1 := [WindowClosed(p, true, true)];
    assert a1[..0] == [];
    var s1 := Next(cfg, INITIAL, a1[0]);
    assert Run(cfg, a1) == Some(s1);
    var a2, s2 := a1 + [Work(0, Register)], Next(cfg, s1, Work(0, Register));
    OneStepMore(cfg, a1, Work(0, Register), s1);
    var a3, s3 := a2 + [Work(0, BeginAttempt)], Next(cfg, s2, Work(0, BeginAttempt));
    OneStepMore(cfg, a2, Work(0, BeginAttempt), s2);
    var s4 := Next(cfg, s3, Work(0, Send(true)));
    OneStepMore(cfg, a3, Work(0, Send(true)), s3);
    assert s4.mem.threads == map[0 := Worker(p, Waiting(0), 1, 0.0, 2)];
    assert s4.hist.known == s4.hist.handed == s4.hist.delivered == {p.windowId};
    assert a3 + [Work(0, Send(true))] == SentSteps(p);
  }

  /** The answer is handled and read. */
  function AnsweredSteps(p: Payload, status: string): seq<Step> {
    SentSteps(p) + [HandleAck(p.windowId, status)] + [Work(0, WakeUp)] + [Work(0, ReadResult)]
  }

  lemma {:induction false} AnsweredWindow(cfg: Config, p: Payload, status: string)
    requires AcceptedStatus(status)
    ensures Run(cfg, AnsweredSteps(p, status)).Some?
    ensures var s := Run(cfg, AnsweredSteps(p, status)).value;
            && s.disk.completed == [] && s.hist.delivered == {p.windowId} && s.hist.nextThread == 1
            && s.mem.workers == map[p.windowId := 0] && s.mem.events == map[p.windowId := 0] && s.mem.lock.None?
            && s.mem.threads == map[0 := Worker(p, if status == "ack" then Marking else AfterAttempt(cfg, 0), 1, 0.0, 2)]
  {
    SentWindow(cfg, p);
    var a4, s4 := SentSteps(p), Run(cfg, SentSteps(p)).value;
    var a5, s5 := a4 + [HandleAck(p.windowId, status)], Next(cfg, s4, HandleAck(p.windowId, status));
    OneStepMore(cfg, a4, HandleAck(p.windowId, status), s4);
    var a6, s6 := a5 + [Work(0, WakeUp)], Next(cfg, s5, Work(0, WakeUp));
    OneStepMore(cfg, a5, Work(0, WakeUp), s5);
    OneStepMore(cfg, a6, Work(0, ReadResult), s6);
  }

  /** Here the server's "ACK" is accepted and wakes the worker, which sleeps and will send again. */
  lemma {:induction false} UpperCaseAckIsLost(cfg: Config, p: Payload)
    requires cfg.maxRetries > 0
    ensures var steps := AnsweredSteps(p, "ACK");
            && AcceptedStatus("ACK") && Run(cfg, steps).Some? && 0 in Run(cfg, steps).value.mem.threads
            && Run(cfg, steps).value.mem.threads[0].pc == Sleeping(0) && p.windowId in Run(cfg, steps).value.hist.delivered
  {
    assert Lower("ACK") == ['a', 'c', 'k'] == "ack";
    AnsweredWindow(cfg, p, "ACK");
  }

  /** One worker serves the window until its acknowledgement is on disk. */
  function ServedSteps(p: Payload): seq<Step> {
    AnsweredSteps(p, "ack") + [Work(0, WriteCompleted(true, true))] + [Work(0, Unlink(true))] + [Work(0, Exit)]
  }

  lemma {:induction false} ServedWindow(cfg: Config, p: Payload)
    ensures Run(cfg, ServedSteps(p)).Some?
    ensures var s := Run(cfg, ServedSteps(p)).value;
            s.disk.completed == [p.windowId] && s.mem.threads == map[] && s.mem.lock.None? && s.hist.nextThread == 1
  {
    assert Lower("ack") == ['a', 'c', 'k'] == "ack";
    AnsweredWindow(cfg, p, "ack");
    var a7, s7 := AnsweredSteps(p, "ack"), Run(cfg, AnsweredSteps(p, "ack")).value;
    var a8, s8 := a7 + [Work(0, WriteCompleted(true, true))], Next(cfg, s7, Work(0, WriteCompleted(true, true)));
    OneStepMore(cfg, a7, Work(0, WriteCompleted(true, true)), s7);
    var a9, s9 := a8 + [Work(0, Unlink(true))], Next(cfg, s8, Work(0, Unlink(true)));
    OneStepMore(cfg, a8, Work(0, Unlink(true)), s8);
    OneStepMore(cfg, a9, Work(0, Exit), s9);
    assert [] + [p.windowId] == [p.windowId];
  }

  /** A completed window whose list cannot be read when it is handed over again is stored and sent again. */
  lemma {:induction false} UnreadListRevivesWindow(cfg: Config, p: Payload)
    ensures var again := ServedSteps(p) + [WindowClosed(p, false, true)];
            && Run(cfg, again).Some? && p.windowId in Run(cfg, ServedSteps(p)).value.disk.completed
            && StartsWorker(Run(cfg, ServedSteps(p)).value, Run(cfg, again).value, p.windowId)
            && Stored(cfg, Run(cfg, again).value.disk, p.windowId)
  {
    ServedWindow(cfg, p);
    var s := Run(cfg, ServedSteps(p)).value;
    OneStepMore(cfg, ServedSteps(p), WindowClosed(p, false, true), s);
    assert Serves(Next(cfg, s, WindowClosed(p, false, true)).mem, 1, p.windowId);
  }

  /** The server acknowledges only windows it received. */
  ghost predicate HonestServer(cfg: Config, steps: seq<Step>) {
    forall i, w :: 0 <= i < |steps| && steps[i] == HandleAck(w, "ack") && Run(cfg, steps[..i]).Some? ==>
      w in Run(cfg, steps[..i]).value.hist.delivered
  }

  lemma {:induction false} DeliveredGrows(cfg: Config, steps: seq<Step>, i: nat)
    requires i <= |steps| && Run(cfg, steps).Some?
    ensures Run(cfg, steps[..i]).Some?
    ensures Run(cfg, steps[..i]).value.hist.delivered <= Run(cfg, steps).value.hist.delivered
    decreases |steps| - i
  {
    if i < |steps| {
      var n := |steps| - 1;
      assert steps[..n][..i] == steps[..i];
      DeliveredToPrefix(cfg, steps);
      DeliveredGrows(cfg, steps[..n], i);
    } else {
      assert steps[..i] == steps;
    }
  }

  lemma {:induction false} DeliveredToPrefix(cfg: Config, steps: seq<Step>)
    requires steps != [] && Run(cfg, steps).Some?
    ensures Run(cfg, steps[..|steps| - 1]).Some?
    ensures Run(cfg, steps[..|steps| - 1]).value.hist.delivered <= Run(cfg, steps).value.hist.delivered
  {
  }

  /** End to end: with an honest server, a handed window is on the client's disk or has reached the server. */
  lemma {:induction false} HandedIsStoredOrDelivered(cfg: Config, steps: seq<Step>, w: WindowId)
    requires Run(cfg, steps).Some? && w in Run(cfg, steps).value.hist.handed
    requires !Clash(cfg, Run(cfg, steps).value.hist.known, w) && HonestServer(cfg, steps)
    ensures Stored(cfg, Run(cfg, steps).value.disk, w) || w in Run(cfg, steps).value.hist.delivered
  {
    NoWindowLost(cfg, steps, w);
    if AckHandled(steps, w) {
      var i :| 0 <= i < |steps| && steps[i] == HandleAck(w, "ack");
      DeliveredGrows(cfg, steps, i);
    }
  }
}
