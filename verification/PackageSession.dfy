/** Chunked package transfers: staged part files, live sessions, and what gets published. */
module PackageSession {
  import opened Prelude
  import opened Wire

  /** Part files and deployed or update archives lie in the staging directory, sent files in their own. */
  datatype Path = Part(package: string) | Zip(package: string) | SentFile(name: string)

  datatype Operation = DeployPackage | SendFile | UpdateClient

  /** What an init message announces. */
  datatype Plan = Plan(package: string, operation: Operation, name: string, expected: string, total: int)

  function FinalPath(plan: Plan): Path {
    if plan.operation == SendFile then SentFile(plan.name) else Zip(plan.package)
  }

  /**
   * A live session. `handle` is the file that was opened, which keeps existing when its path is reused; `hashed`
   * is what the hasher was fed; `accepted` lists the chunks taken so far.
   */
  datatype Session = Session(plan: Plan, handle: nat, open: bool, hashed: Bytes, written: nat, accepted: seq<Bytes>)

  /**
   * The disk maps paths to files and files to their bytes. `finals` remembers the hash announced for each path
   * that was published.
   */
  datatype State = State(files: map<Path, nat>, content: seq<Bytes>, sessions: map<string, Session>, finals: map<Path, string>)

  /** How an init that passed its checks ends: refused before anything was touched, at the opening of the part file, at
      the conversion of its numbers, or not at all. */
  datatype InitEnd = Refused | OpenFails | BadNumbers | Ready

  /** Whether the write succeeds (or leaves a piece of the chunk behind), and whether renaming and removing succeed. */
  datatype Io = Io(write: bool, torn: Bytes, rename: bool, unlink: bool)

  datatype Step =
    | Init(action: string, plan: Plan, end: InitEnd)
    | Chunk(action: string, number: int, data: Option<Bytes>, io: Io)
    | Restart

  datatype Reply = Nothing | Done | Failed

  // ---------------------------------------------------------------- the steps

  function Opened(s: State, plan: Plan): State {
    s.(files := s.files[Part(plan.package) := |s.content|], content := s.content + [[]])
  }

  function Closed(sessions: map<string, Session>, action: string): map<string, Session> {
    if action in sessions then sessions[action := sessions[action].(open := false)] else sessions
  }

  /** `_handle_deploy_package_init`: a stale part file is cleared, the new one opened, the session replaced. */
  function AfterInit(s: State, action: string, plan: Plan, end: InitEnd): State {
    match end
    case Refused => s
    case OpenFails => s.(files := s.files - {Part(plan.package)})
    case BadNumbers => Opened(s, plan).(sessions := Closed(s.sessions, action))
    case Ready => Opened(s, plan).(sessions := s.sessions[action := Session(plan, |s.content|, true, [], 0, [])])
  }

  function Removed(files: map<Path, nat>, path: Path, unlink: bool): map<Path, nat> {
    if unlink then files - {path} else files
  }

  function Dropped(s: State, action: string, unlink: bool): State
    requires action in s.sessions
  {
    s.(files := Removed(s.files, Part(s.sessions[action].plan.package), unlink), sessions := s.sessions - {action})
  }

  function Taken(session: Session, bytes: Bytes): Session {
    session.(hashed := session.hashed + bytes, written := session.written + |bytes|, accepted := session.accepted + [bytes])
  }

  function Written(s: State, handle: nat, bytes: Bytes): State {
    if handle < |s.content| then s.(content := s.content[handle := s.content[handle] + bytes]) else s
  }

  function Accepts(s: State, action: string, data: Option<Bytes>, io: Io): bool {
    action in s.sessions && s.sessions[action].open && data.Some? && io.write
  }

  /** The chunk is on disk and in the hasher. */
  function Stored(s: State, action: string, bytes: Bytes): State
    requires action in s.sessions
  {
    var session := s.sessions[action];
    Written(s, session.handle, bytes).(sessions := s.sessions[action := Taken(session, bytes)])
  }

  /** Whatever is at the part path becomes the final file. */
  function Published(s: State, action: string): State
    requires action in s.sessions && Part(s.sessions[action].plan.package) in s.files
  {
    var plan := s.sessions[action].plan;
    State((s.files - {Part(plan.package)})[FinalPath(plan) := s.files[Part(plan.package)]], s.content,
          s.sessions - {action}, s.finals[FinalPath(plan) := plan.expected])
  }

  /** After the chunk numbered like the total. */
  function Completed(hash: Bytes -> string, s: State, action: string, io: Io): (State, Reply)
    requires action in s.sessions
  {
    var session := s.sessions[action];
    if hash(session.hashed) == session.plan.expected && Part(session.plan.package) in s.files && io.rename
    then (Published(s, action), Done)
    else (Dropped(s, action, io.unlink), Failed)
  }

  /** `process_package_chunk`. */
  function AfterChunk(hash: Bytes -> string, s: State, action: string, number: int, data: Option<Bytes>, io: Io): (State, Reply) {
    if action !in s.sessions then (s, Failed)
    else if !Accepts(s, action, data, io) then
      var torn := if s.sessions[action].open && data.Some? then io.torn else [];
      (Dropped(Written(s, s.sessions[action].handle, torn), action, io.unlink), Failed)
    else
      var s' := Stored(s, action, data.value);
      if number != s.sessions[action].plan.total then (s', Nothing) else Completed(hash, s', action, io)
  }

  function After(hash: Bytes -> string, s: State, step: Step): State {
    match step
    case Init(action, plan, end) => AfterInit(s, action, plan, end)
    case Chunk(action, number, data, io) => AfterChunk(hash, s, action, number, data, io).0
    case Restart => s.(sessions := map[])
  }

  function Run(hash: Bytes -> string, s: State, steps: seq<Step>): State
    decreases |steps|
  {
    if steps == [] then s else Run(hash, After(hash, s, steps[0]), steps[1..])
  }

  // ---------------------------------------------------------------- the invariant

  type Files = map<Path, nat>
  type Sessions = map<string, Session>

  ghost predicate GoodDisk(files: Files, content: seq<Bytes>) {
    && (forall p :: p in files ==> files[p] < |content|)
    && (forall p, q :: p in files && q in files && files[p] == files[q] ==> p == q)
  }

  /** Hasher, counter and file of a session agree with the chunks it took. */
  ghost predicate GoodSession(content: seq<Bytes>, session: Session) {
    && session.handle < |content|
    && session.hashed == Concat(session.accepted) && session.written == |session.hashed|
    && content[session.handle] == session.hashed
  }

  /** The file of an open session is at its part path, or nothing is; and it is nowhere else. */
  ghost predicate GoodPath(files: Files, session: Session) {
    && (session.open && Part(session.plan.package) in files ==> files[Part(session.plan.package)] == session.handle)
    && (forall p :: p in files && files[p] == session.handle ==> p == Part(session.plan.package))
  }

  ghost predicate AllGood(files: Files, content: seq<Bytes>, sessions: Sessions) {
    forall a :: a in sessions ==> GoodSession(content, sessions[a]) && GoodPath(files, sessions[a])
  }

  ghost predicate AllDistinct(sessions: Sessions) {
    forall a, b :: a in sessions && b in sessions && a != b ==>
      sessions[a].handle != sessions[b].handle && sessions[a].plan.package != sessions[b].plan.package
  }

  /** Every published file still holds bytes with the hash announced for it. */
  ghost predicate Verified(hash: Bytes -> string, files: Files, content: seq<Bytes>, finals: map<Path, string>) {
    forall p :: p in finals ==> !p.Part? && p in files && files[p] < |content| && hash(content[files[p]]) == finals[p]
  }

  ghost predicate Inv(hash: Bytes -> string, s: State) {
    && GoodDisk(s.files, s.content) && AllGood(s.files, s.content, s.sessions) && AllDistinct(s.sessions)
    && Verified(hash, s.files, s.content, s.finals)
  }

  /** No init reuses the package id of another live session. */
  ghost predicate Distinct(s: State, step: Step) {
    step.Init? ==> forall a :: a in s.sessions && a != step.action ==> s.sessions[a].plan.package != step.plan.package
  }

  ghost predicate DistinctRun(hash: Bytes -> string, s: State, steps: seq<Step>)
    decreases |steps|
  {
    steps == [] || (Distinct(s, steps[0]) && DistinctRun(hash, After(hash, s, steps[0]), steps[1..]))
  }

  // ---------------------------------------------------------------- every step keeps it

  lemma {:induction false} OpeningKeepsFiles(hash: Bytes -> string, s: State, plan: Plan)
    requires GoodDisk(s.files, s.content) && Verified(hash, s.files, s.content, s.finals)
    ensures var s' := Opened(s, plan); GoodDisk(s'.files, s'.content) && Verified(hash, s'.files, s'.content, s'.finals)
  {
  }

  lemma {:induction false} OpeningKeepsOthers(s: State, action: string, plan: Plan, others: Sessions)
    requires GoodDisk(s.files, s.content) && AllGood(s.files, s.content, others)
    requires forall a :: a in others ==> others[a].plan.package != plan.package
    ensures var s' := Opened(s, plan); AllGood(s'.files, s'.content, others)
  {
  }

  /** The session whose part file was replaced stays sound if it is closed: its file is only gone. */
  lemma {:induction false} OpeningKeepsClosed(s: State, plan: Plan, session: Session)
    requires GoodDisk(s.files, s.content) && GoodSession(s.content, session) && GoodPath(s.files, session)
    ensures var s', closed := Opened(s, plan), session.(open := false);
            GoodSession(s'.content, closed) && GoodPath(s'.files, closed)
  {
  }

  lemma {:induction false} OpenedSessionIsGood(s: State, plan: Plan)
    requires GoodDisk(s.files, s.content)
    ensures var s', session := Opened(s, plan), Session(plan, |s.content|, true, [], 0, []);
            GoodSession(s'.content, session) && GoodPath(s'.files, session)
  {
  }

  lemma {:induction false} InitKeepsInv(hash: Bytes -> string, s: State, action: string, plan: Plan, end: InitEnd)
    requires Inv(hash, s) && Distinct(s, Init(action, plan, end))
    ensures Inv(hash, AfterInit(s, action, plan, end))
  {
    if end.BadNumbers? || end.Ready? {
      OpeningKeepsFiles(hash, s, plan);
      OpeningKeepsOthers(s, action, plan, s.sessions - {action});
      OpenedSessionIsGood(s, plan);
      if action in s.sessions {
        OpeningKeepsClosed(s, plan, s.sessions[action]);
      }
      SessionReplaced(s, action, plan, end);
    }
  }

  lemma {:induction false} SessionReplaced(s: State, action: string, plan: Plan, end: InitEnd)
    requires AllDistinct(s.sessions) && Distinct(s, Init(action, plan, end)) && (end.BadNumbers? || end.Ready?)
    requires forall a :: a in s.sessions ==> s.sessions[a].handle < |s.content|
    requires var s' := Opened(s, plan); AllGood(s'.files, s'.content, s.sessions - {action})
    requires var s', session := Opened(s, plan), Session(plan, |s.content|, true, [], 0, []);
             GoodSession(s'.content, session) && GoodPath(s'.files, session)
    requires action in s.sessions ==>
               var s', closed := Opened(s, plan), s.sessions[action].(open := false);
               GoodSession(s'.content, closed) && GoodPath(s'.files, closed)
    ensures var s' := AfterInit(s, action, plan, end); AllDistinct(s'.sessions) && AllGood(s'.files, s'.content, s'.sessions)
  {
    var s', after := AfterInit(s, action, plan, end), Opened(s, plan);
    assert s'.files == after.files && s'.content == after.content;
    if action in s'.sessions {
      GoodWithOne(after.files, after.content, s.sessions, action, s'.sessions[action]);
      DistinctWithOne(s.sessions, action, s'.sessions[action]);
    } else {
      assert s'.sessions == s.sessions - {action};
    }
  }

  lemma {:induction false} GoodWithOne(files: Files, content: seq<Bytes>, sessions: Sessions, action: string, session: Session)
    requires AllGood(files, content, sessions - {action}) && GoodSession(content, session) && GoodPath(files, session)
    ensures AllGood(files, content, sessions[action := session])
  {
    forall a | a in sessions[action := session] && a != action
      ensures GoodSession(content, sessions[a]) && GoodPath(files, sessions[a])
    {
      assert a in sessions - {action};
    }
  }

  lemma {:induction false} DistinctWithOne(sessions: Sessions, action: string, session: Session)
    requires AllDistinct(sessions)
    requires forall a :: a in sessions && a != action ==>
               sessions[a].handle != session.handle && sessions[a].plan.package != session.plan.package
    ensures AllDistinct(sessions[action := session])
  {
  }

  lemma {:induction false} DropKeepsInv(hash: Bytes -> string, s: State, action: string, unlink: bool)
    requires Inv(hash, s) && action in s.sessions
    ensures Inv(hash, Dropped(s, action, unlink))
  {
  }

  lemma {:induction false} WritingKeepsOthers(files: Files, content: seq<Bytes>, handle: nat, bytes: Bytes, others: Sessions)
    requires AllGood(files, content, others) && handle < |content|
    requires forall a :: a in others ==> others[a].handle != handle
    ensures AllGood(files, content[handle := content[handle] + bytes], others)
  {
  }

  /** Writing to the file of a session spoils no published file. */
  lemma {:induction false} WritingKeepsFinals(hash: Bytes -> string, s: State, session: Session, bytes: Bytes)
    requires GoodDisk(s.files, s.content) && Verified(hash, s.files, s.content, s.finals)
    requires GoodSession(s.content, session) && GoodPath(s.files, session)
    ensures var s' := Written(s, session.handle, bytes);
            GoodDisk(s'.files, s'.content) && Verified(hash, s'.files, s'.content, s'.finals)
  {
  }

  lemma {:induction false} StoreKeepsInv(hash: Bytes -> string, s: State, action: string, bytes: Bytes)
    requires Inv(hash, s) && action in s.sessions && s.sessions[action].open
    ensures Inv(hash, Stored(s, action, bytes))
  {
    var session := s.sessions[action];
    ConcatSnoc(session.accepted, bytes);
    WritingKeepsFinals(hash, s, session, bytes);
    WritingKeepsOthers(s.files, s.content, session.handle, bytes, s.sessions - {action});
    var s' := Stored(s, action, bytes);
    forall a | a in s'.sessions
      ensures GoodSession(s'.content, s'.sessions[a]) && GoodPath(s'.files, s'.sessions[a])
    {
      if a != action {
        assert a in s.sessions - {action};
      }
    }
  }

  /** A piece of a chunk left behind by a failed write is in a file that is dropped. */
  lemma {:induction false} TornKeepsInv(hash: Bytes -> string, s: State, action: string, torn: Bytes, unlink: bool)
    requires Inv(hash, s) && action in s.sessions
    ensures Inv(hash, Dropped(Written(s, s.sessions[action].handle, torn), action, unlink))
  {
    var session := s.sessions[action];
    WritingKeepsFinals(hash, s, session, torn);
    WritingKeepsOthers(s.files, s.content, session.handle, torn, s.sessions - {action});
    RemovingKeepsOthers(s.files, s.content[session.handle := s.content[session.handle] + torn],
                        Part(session.plan.package), unlink, s.sessions - {action});
  }

  lemma {:induction false} RemovingKeepsOthers(files: Files, content: seq<Bytes>, path: Path, unlink: bool, others: Sessions)
    requires AllGood(files, content, others)
    ensures AllGood(Removed(files, path, unlink), content, others)
  {
  }

  lemma {:induction false} RenamingKeepsOthers(files: Files, content: seq<Bytes>, package: string, final: Path, others: Sessions)
    requires GoodDisk(files, content) && AllGood(files, content, others) && Part(package) in files && !final.Part?
    requires forall a :: a in others ==> others[a].plan.package != package && others[a].handle != files[Part(package)]
    ensures AllGood((files - {Part(package)})[final := files[Part(package)]], content, others)
  {
  }

  lemma {:induction false} PublishKeepsInv(hash: Bytes -> string, s: State, action: string)
    requires Inv(hash, s) && action in s.sessions && s.sessions[action].open
    requires Part(s.sessions[action].plan.package) in s.files
    requires hash(s.sessions[action].hashed) == s.sessions[action].plan.expected
    ensures Inv(hash, Published(s, action))
  {
    var plan := s.sessions[action].plan;
    RenamingKeepsOthers(s.files, s.content, plan.package, FinalPath(plan), s.sessions - {action});
  }

  lemma {:induction false} ChunkKeepsInv(hash: Bytes -> string, s: State, action: string, number: int, data: Option<Bytes>, io: Io)
    requires Inv(hash, s)
    ensures Inv(hash, AfterChunk(hash, s, action, number, data, io).0)
  {
    if action in s.sessions {
      var session := s.sessions[action];
      if !Accepts(s, action, data, io) {
        TornKeepsInv(hash, s, action, if session.open && data.Some? then io.torn else [], io.unlink);
      } else {
        StoreKeepsInv(hash, s, action, data.value);
        if number == session.plan.total {
          CompletionKeepsInv(hash, Stored(s, action, data.value), action, io);
        }
      }
    }
  }

  lemma {:induction false} CompletionKeepsInv(hash: Bytes -> string, s: State, action: string, io: Io)
    requires Inv(hash, s) && action in s.sessions && s.sessions[action].open
    ensures Inv(hash, Completed(hash, s, action, io).0)
  {
    var plan := s.sessions[action].plan;
    if hash(s.sessions[action].hashed) == plan.expected && Part(plan.package) in s.files && io.rename {
      PublishKeepsInv(hash, s, action);
    } else {
      DropKeepsInv(hash, s, action, io.unlink);
    }
  }

  lemma {:induction false} StepKeepsInv(hash: Bytes -> string, s: State, step: Step)
    requires Inv(hash, s) && Distinct(s, step)
    ensures Inv(hash, After(hash, s, step))
  {
    match step
    case Init(action, plan, end) => InitKeepsInv(hash, s, action, plan, end);
    case Chunk(action, number, data, io) => ChunkKeepsInv(hash, s, action, number, data, io);
    case Restart =>
  }

  /** The agent starts without sessions and finds any files, among them parts of earlier transfers. */
  ghost predicate Starts(s: State) {
    GoodDisk(s.files, s.content) && s.sessions == map[] && s.finals == map[]
  }

  lemma {:induction false} RunKeepsInv(hash: Bytes -> string, s: State, steps: seq<Step>)
    requires Inv(hash, s) && DistinctRun(hash, s, steps)
    ensures Inv(hash, Run(hash, s, steps))
    decreases |steps|
  {
    if steps != [] {
      StepKeepsInv(hash, s, steps[0]);
      RunKeepsInv(hash, After(hash, s, steps[0]), steps[1..]);
    }
  }

  /**
   * In every run in which no init reuses the package id of another live session, whatever fails and whenever the
   * agent restarts: every published path still holds bytes with the hash that was announced for it.
   */
  lemma {:induction false} PublishedFilesAreVerified(hash: Bytes -> string, s: State, steps: seq<Step>, path: Path)
    requires Starts(s) && DistinctRun(hash, s, steps) && path in Run(hash, s, steps).finals
    ensures var s' := Run(hash, s, steps);
            path in s'.files && s'.files[path] < |s'.content| && hash(s'.content[s'.files[path]]) == s'.finals[path]
  {
    RunKeepsInv(hash, s, steps);
  }

  // ---------------------------------------------------------------- other transfers

  lemma {:induction false} InitLeavesOthers(s: State, action: string, plan: Plan, end: InitEnd, other: string)
    requires other in s.sessions && other != action && s.sessions[other].plan.package != plan.package
    ensures var s' := AfterInit(s, action, plan, end);
            && other in s'.sessions && s'.sessions[other] == s.sessions[other]
            && (Part(s.sessions[other].plan.package) in s.files ==> Part(s.sessions[other].plan.package) in s'.files)
  {
  }

  lemma {:induction false} ChunkLeavesOthers(hash: Bytes -> string, s: State, action: string, number: int, data: Option<Bytes>, io: Io, other: string)
    requires AllDistinct(s.sessions) && other in s.sessions && other != action
    ensures var s' := AfterChunk(hash, s, action, number, data, io).0;
            && other in s'.sessions && s'.sessions[other] == s.sessions[other]
            && (Part(s.sessions[other].plan.package) in s.files ==> Part(s.sessions[other].plan.package) in s'.files)
  {
    if action in s.sessions {
      assert s.sessions[action].plan.package != s.sessions[other].plan.package;
    }
  }

  /** What others do leaves a session and its part file alone. */
  lemma {:induction false} OthersLeaveSession(hash: Bytes -> string, s: State, step: Step, action: string)
    requires AllDistinct(s.sessions) && Distinct(s, step) && action in s.sessions
    requires !step.Restart? && step.action != action
    ensures var s' := After(hash, s, step);
            && action in s'.sessions && s'.sessions[action] == s.sessions[action]
            && (Part(s.sessions[action].plan.package) in s.files ==> Part(s.sessions[action].plan.package) in s'.files)
  {
    match step
    case Init(a, plan, end) => InitLeavesOthers(s, a, plan, end, action);
    case Chunk(a, number, data, io) => ChunkLeavesOthers(hash, s, a, number, data, io, action);
  }

  // ---------------------------------------------------------------- delivery

  /** The steps of a run that belong to one session are its chunks in order, each written, the last one renamed. */
  predicate Delivers(steps: seq<Step>, action: string, chunks: seq<Bytes>, k: nat)
    requires k <= |chunks|
    decreases |steps|
  {
    if k == |chunks| then steps == []
    else
      && steps != []
      && if steps[0].Chunk? && steps[0].action == action
         then steps[0].number == k + 1 && steps[0].data == Some(chunks[k]) && steps[0].io.write
              && (k + 1 == |chunks| ==> steps[0].io.rename) && Delivers(steps[1..], action, chunks, k + 1)
         else !steps[0].Restart? && steps[0].action != action && Delivers(steps[1..], action, chunks, k)
  }

  lemma {:induction false} LastChunkPublishes(hash: Bytes -> string, s: State, action: string, bytes: Bytes, io: Io)
    requires Inv(hash, s) && action in s.sessions && s.sessions[action].open && io.write && io.rename
    requires Part(s.sessions[action].plan.package) in s.files
    requires hash(s.sessions[action].hashed + bytes) == s.sessions[action].plan.expected
    ensures var (s', reply) := AfterChunk(hash, s, action, s.sessions[action].plan.total, Some(bytes), io);
            var final := FinalPath(s.sessions[action].plan);
            && reply == Done && action !in s'.sessions && final in s'.files && s'.files[final] < |s'.content|
            && s'.content[s'.files[final]] == s.sessions[action].hashed + bytes
  {
  }

  lemma {:induction false} ChunkIsTaken(hash: Bytes -> string, s: State, action: string, number: int, bytes: Bytes, io: Io)
    requires action in s.sessions && s.sessions[action].open && io.write && number != s.sessions[action].plan.total
    ensures var (s', reply) := AfterChunk(hash, s, action, number, Some(bytes), io);
            && reply == Nothing && s'.files == s.files
            && action in s'.sessions && s'.sessions[action] == Taken(s.sessions[action], bytes)
  {
  }

  /** The session has taken the first `k` chunks and its part file is there. */
  ghost predicate TookFirst(s: State, action: string, plan: Plan, chunks: seq<Bytes>, k: nat)
    requires k <= |chunks|
  {
    && action in s.sessions && Part(plan.package) in s.files
    && s.sessions[action].plan == plan && s.sessions[action].open && s.sessions[action].accepted == chunks[..k]
  }

  /** A file that is sent goes under its name to the sent files, any other package under its id beside the part files. */
  predicate IsFinalPath(plan: Plan, path: Path) {
    match plan.operation
    case SendFile => path == SentFile(plan.name)
    case DeployPackage => path == Zip(plan.package)
    case UpdateClient => path == Zip(plan.package)
  }

  ghost predicate PublishedAs(s: State, action: string, plan: Plan, bytes: Bytes) {
    && action !in s.sessions
    && (exists path :: IsFinalPath(plan, path) && path in s.files && s.files[path] < |s.content| && s.content[s.files[path]] == bytes)
  }

  lemma {:induction false} NextChunkIsTaken(hash: Bytes -> string, s: State, action: string, plan: Plan, chunks: seq<Bytes>, k: nat, io: Io)
    requires k + 1 < |chunks| == plan.total && TookFirst(s, action, plan, chunks, k) && io.write
    ensures TookFirst(AfterChunk(hash, s, action, k + 1, Some(chunks[k]), io).0, action, plan, chunks, k + 1)
  {
    ChunkIsTaken(hash, s, action, k + 1, chunks[k], io);
    assert chunks[..k] + [chunks[k]] == chunks[..k + 1];
  }

  lemma {:induction false} FinalChunkPublishes(hash: Bytes -> string, s: State, action: string, plan: Plan, chunks: seq<Bytes>, io: Io)
    requires Inv(hash, s) && 0 < |chunks| == plan.total && TookFirst(s, action, plan, chunks, |chunks| - 1) && io.write && io.rename
    requires hash(Concat(chunks)) == plan.expected
    ensures PublishedAs(AfterChunk(hash, s, action, plan.total, Some(chunks[|chunks| - 1]), io).0, action, plan, Concat(chunks))
  {
    var k := |chunks| - 1;
    ConcatSnoc(chunks[..k], chunks[k]);
    assert chunks[..k] + [chunks[k]] == chunks;
    LastChunkPublishes(hash, s, action, chunks[k], io);
  }

  /**
   * Chunks delivered in order, interleaved in any way with other transfers, publish the original bytes: their
   * hash is the announced one, and the agent runs on until the last chunk.
   */
  lemma {:induction false} DeliveryPublishesTheOriginal(
      hash: Bytes -> string, s: State, steps: seq<Step>, action: string, plan: Plan, chunks: seq<Bytes>, k: nat)
    requires Inv(hash, s) && DistinctRun(hash, s, steps) && k < |chunks| == plan.total && Delivers(steps, action, chunks, k)
    requires TookFirst(s, action, plan, chunks, k) && hash(Concat(chunks)) == plan.expected
    ensures PublishedAs(Run(hash, s, steps), action, plan, Concat(chunks))
    decreases |steps|
  {
    var s1 := After(hash, s, steps[0]);
    StepKeepsInv(hash, s, steps[0]);
    if steps[0].Chunk? && steps[0].action == action {
      if k + 1 == |chunks| {
        FinalChunkPublishes(hash, s, action, plan, chunks, steps[0].io);
        assert steps[1..] == [] && Run(hash, s, steps) == s1;
      } else {
        NextChunkIsTaken(hash, s, action, plan, chunks, k, steps[0].io);
        DeliveryPublishesTheOriginal(hash, s1, steps[1..], action, plan, chunks, k + 1);
      }
    } else {
      OthersLeaveSession(hash, s, steps[0], action);
      DeliveryPublishesTheOriginal(hash, s1, steps[1..], action, plan, chunks, k);
    }
  }

  // ---------------------------------------------------------------- shared package ids

  /** Whatever package ids are in use: the disk is sound, every session agrees with its own file, and no two share one. */
  ghost predicate OwnFiles(s: State) {
    && GoodDisk(s.files, s.content)
    && (forall a :: a in s.sessions ==> GoodSession(s.content, s.sessions[a]))
    && (forall a, b :: a in s.sessions && b in s.sessions && a != b ==> s.sessions[a].handle != s.sessions[b].handle)
  }

  lemma {:induction false} InitKeepsOwnFiles(s: State, action: string, plan: Plan, end: InitEnd)
    requires OwnFiles(s)
    ensures OwnFiles(AfterInit(s, action, plan, end))
  {
    match end
    case Refused =>
    case OpenFails =>
    case BadNumbers =>
    case Ready =>
  }

  lemma {:induction false} WriteKeepsOwnFiles(s: State, action: string, bytes: Bytes, torn: bool)
    requires OwnFiles(s) && action in s.sessions && (!torn ==> s.sessions[action].open)
    ensures !torn ==> OwnFiles(Stored(s, action, bytes))
    ensures torn ==> OwnFiles(Written(s, s.sessions[action].handle, bytes).(sessions := s.sessions - {action}))
  {
    ConcatSnoc(s.sessions[action].accepted, bytes);
  }

  lemma {:induction false} FilesKeepOwnFiles(s: State, files: Files, sessions: Sessions, finals: map<Path, string>)
    requires OwnFiles(s) && GoodDisk(files, s.content)
    requires forall a :: a in sessions ==> a in s.sessions && sessions[a] == s.sessions[a]
    ensures OwnFiles(State(files, s.content, sessions, finals))
  {
  }

  lemma {:induction false} CompletedKeepsOwnFiles(hash: Bytes -> string, s: State, action: string, io: Io)
    requires OwnFiles(s) && action in s.sessions
    ensures OwnFiles(Completed(hash, s, action, io).0)
  {
    var s' := Completed(hash, s, action, io).0;
    FilesKeepOwnFiles(s, s'.files, s'.sessions, s'.finals);
  }

  lemma {:induction false} ChunkKeepsOwnFiles(hash: Bytes -> string, s: State, action: string, number: int, data: Option<Bytes>, io: Io)
    requires OwnFiles(s)
    ensures OwnFiles(AfterChunk(hash, s, action, number, data, io).0)
  {
    if action in s.sessions {
      if !Accepts(s, action, data, io) {
        var torn := if s.sessions[action].open && data.Some? then io.torn else [];
        WriteKeepsOwnFiles(s, action, torn, true);
        var s1 := Written(s, s.sessions[action].handle, torn).(sessions := s.sessions - {action});
        var s' := AfterChunk(hash, s, action, number, data, io).0;
        FilesKeepOwnFiles(s1, s'.files, s'.sessions, s'.finals);
      } else {
        WriteKeepsOwnFiles(s, action, data.value, false);
        if number == s.sessions[action].plan.total {
          CompletedKeepsOwnFiles(hash, Stored(s, action, data.value), action, io);
        }
      }
    }
  }

  lemma {:induction false} StepKeepsOwnFiles(hash: Bytes -> string, s: State, step: Step)
    requires OwnFiles(s)
    ensures OwnFiles(After(hash, s, step))
  {
    match step
    case Init(action, plan, end) => InitKeepsOwnFiles(s, action, plan, end);
    case Chunk(action, number, data, io) => ChunkKeepsOwnFiles(hash, s, action, number, data, io);
    case Restart =>
  }

  lemma {:induction false} RunSnoc(hash: Bytes -> string, s: State, steps: seq<Step>, step: Step)
    ensures Run(hash, s, steps + [step]) == After(hash, Run(hash, s, steps), step)
    decreases |steps|
  {
    if steps == [] {
      assert [step][1..] == [];
    } else {
      assert (steps + [step])[0] == steps[0] && (steps + [step])[1..] == steps[1..] + [step];
      RunSnoc(hash, After(hash, s, steps[0]), steps[1..], step);
    }
  }

  /** The step puts a new file at the part path of the package. */
  predicate Opens(step: Step, package: string) {
    step.Init? && step.plan.package == package && (step.end.BadNumbers? || step.end.Ready?)
  }

  /** The session that is live after the steps was made by the one at `i`. */
  predicate IsOwnInit(steps: seq<Step>, action: string, plan: Plan, i: nat) {
    && i < |steps| && steps[i] == Init(action, plan, Ready)
    && forall j :: i < j < |steps| ==> !(steps[j].Init? && steps[j].action == action && steps[j].end.Ready?)
  }

  /** No init opened the part path of the package after step `i`. */
  predicate OnlyOpener(steps: seq<Step>, package: string, i: nat) {
    forall j :: i < j < |steps| ==> !Opens(steps[j], package)
  }

  /** What happens to a session and to the file at its part path; `opens` says that the path is opened anew. */
  ghost predicate Followed(s: State, s': State, action: string, opens: bool) {
    && action in s.sessions && action in s'.sessions && s'.sessions[action].plan == s.sessions[action].plan
    && s'.sessions[action].handle == s.sessions[action].handle
    && var part := Part(s.sessions[action].plan.package);
       && (opens ==> part in s'.files && s'.files[part] == |s.content|)
       && (!opens && part in s'.files ==> part in s.files && s'.files[part] == s.files[part])
  }

  lemma {:induction false} InitOnSession(s: State, a: string, plan: Plan, end: InitEnd, action: string)
    requires action in AfterInit(s, a, plan, end).sessions && !(a == action && end.Ready?)
    ensures action in s.sessions
    ensures Followed(s, AfterInit(s, a, plan, end), action, Opens(Init(a, plan, end), s.sessions[action].plan.package))
  {
  }

  lemma {:induction false} ChunkOnSession(hash: Bytes -> string, s: State, a: string, number: int, data: Option<Bytes>, io: Io, action: string)
    requires action in AfterChunk(hash, s, a, number, data, io).0.sessions
    ensures Followed(s, AfterChunk(hash, s, a, number, data, io).0, action, false)
  {
  }

  /** A step that is not the session's own init. */
  lemma {:induction false} StepOnSession(hash: Bytes -> string, s: State, step: Step, action: string)
    requires action in After(hash, s, step).sessions
    requires !(step.Init? && step.action == action && step.end.Ready?)
    ensures action in s.sessions && Followed(s, After(hash, s, step), action, Opens(step, s.sessions[action].plan.package))
  {
    match step
    case Init(a, plan, end) => InitOnSession(s, a, plan, end, action);
    case Chunk(a, number, data, io) => ChunkOnSession(hash, s, a, number, data, io, action);
    case Restart =>
  }

  lemma {:induction false} OwnInitSnoc(steps: seq<Step>, step: Step, action: string, plan: Plan, i: nat)
    requires IsOwnInit(steps, action, plan, i) && !(step.Init? && step.action == action && step.end.Ready?)
    ensures IsOwnInit(steps + [step], action, plan, i)
  {
    assert (steps + [step])[|steps|] == step;
  }

  /**
   * In every run, shared package ids included: the file at the part path of a live session, if there is one, is the
   * session's own exactly when no other init of its package opened the path since the session's own init.
   */
  lemma {:induction false} PartPathTellsTheLastOpener(hash: Bytes -> string, s0: State, steps: seq<Step>, action: string) returns (i: nat)
    requires Starts(s0) && action in Run(hash, s0, steps).sessions
    ensures var s := Run(hash, s0, steps);
            var session := s.sessions[action];
            var part := Part(session.plan.package);
            && OwnFiles(s) && IsOwnInit(steps, action, session.plan, i)
            && (part in s.files ==> (s.files[part] == session.handle <==> OnlyOpener(steps, session.plan.package, i)))
    decreases |steps|
  {
    var n := |steps| - 1;
    if steps == [] {
      assert false;
    }
    var front, step := steps[..n], steps[n];
    assert steps == front + [step];
    RunSnoc(hash, s0, front, step);
    RunKeepsOwnFiles(hash, s0, front);
    var s := Run(hash, s0, front);
    StepKeepsOwnFiles(hash, s, step);
    if step.Init? && step.action == action && step.end.Ready? {
      i := n;
    } else {
      StepOnSession(hash, s, step, action);
      i := PartPathTellsTheLastOpener(hash, s0, front, action);
      var plan := s.sessions[action].plan;
      OwnInitSnoc(front, step, action, plan, i);
      OpenersSnoc(front, step, plan.package, i);
    }
  }

  lemma {:induction false} OpenersSnoc(steps: seq<Step>, step: Step, package: string, i: nat)
    requires i < |steps|
    ensures OnlyOpener(steps + [step], package, i) <==> OnlyOpener(steps, package, i) && !Opens(step, package)
  {
    assert (steps + [step])[|steps|] == step;
    assert forall j :: 0 <= j < |steps| ==> (steps + [step])[j] == steps[j];
  }

  lemma {:induction false} RunKeepsOwnFiles(hash: Bytes -> string, s: State, steps: seq<Step>)
    requires OwnFiles(s)
    ensures OwnFiles(Run(hash, s, steps))
    decreases |steps|
  {
    if steps != [] {
      StepKeepsOwnFiles(hash, s, steps[0]);
      RunKeepsOwnFiles(hash, After(hash, s, steps[0]), steps[1..]);
    }
  }

  /** What completing publishes is the file at the part path as the last chunk left it. */
  lemma {:induction false} CompletionMovesThePart(hash: Bytes -> string, s: State, action: string, bytes: Bytes, io: Io)
    requires OwnFiles(s) && action in s.sessions
    requires AfterChunk(hash, s, action, s.sessions[action].plan.total, Some(bytes), io).1 == Done
    ensures var session := s.sessions[action];
            var s' := AfterChunk(hash, s, action, session.plan.total, Some(bytes), io).0;
            && Part(session.plan.package) in s.files && FinalPath(session.plan) in s'.files && |s'.content| == |s.content|
            && var there := s.files[Part(session.plan.package)];
               && s'.files[FinalPath(session.plan)] == there
               && hash(session.hashed + bytes) == session.plan.expected
               && s'.content[there] == if there == session.handle then session.hashed + bytes else s.content[there]
  {
  }

  /**
   * In every run, a completing session publishes its own file, with the bytes that were hashed, exactly when no
   * other init of its package opened the part path since the session's own init; otherwise it publishes the file
   * of such an init as it is.
   */
  lemma {:induction false} CompletionPublishesItsOwnExactly(
      hash: Bytes -> string, s0: State, steps: seq<Step>, action: string, bytes: Bytes, io: Io) returns (i: nat)
    requires Starts(s0) && action in Run(hash, s0, steps).sessions
    requires var s := Run(hash, s0, steps);
             AfterChunk(hash, s, action, s.sessions[action].plan.total, Some(bytes), io).1 == Done
    ensures var s := Run(hash, s0, steps);
            var session := s.sessions[action];
            var s' := AfterChunk(hash, s, action, session.plan.total, Some(bytes), io).0;
            && IsOwnInit(steps, action, session.plan, i) && FinalPath(session.plan) in s'.files
            && var published := s'.files[FinalPath(session.plan)];
               && published < |s'.content|
               && (published == session.handle <==> OnlyOpener(steps, session.plan.package, i))
               && (published == session.handle ==> s'.content[published] == Concat(session.accepted + [bytes])
                                                   && hash(s'.content[published]) == session.plan.expected)
               && (published != session.handle ==> published < |s.content| && s'.content[published] == s.content[published])
  {
    i := PartPathTellsTheLastOpener(hash, s0, steps, action);
    var s := Run(hash, s0, steps);
    CompletionMovesThePart(hash, s, action, bytes, io);
    ConcatSnoc(s.sessions[action].accepted, bytes);
  }

  /** What a failing chunk does to the paths and files, the session's own file apart. */
  ghost predicate OnlyPartGone(s: State, s': State, part: Path, own: nat, unlink: bool) {
    && s'.finals == s.finals && |s'.content| == |s.content|
    && s'.files == (if unlink then s.files - {part} else s.files)
    && (forall h :: 0 <= h < |s.content| && h != own ==> s'.content[h] == s.content[h])
  }

  lemma {:induction false} FailingChunk(hash: Bytes -> string, s: State, action: string, number: int, data: Option<Bytes>, io: Io)
    requires action in s.sessions
    ensures var session := s.sessions[action];
            var part := Part(session.plan.package);
            var (s', reply) := AfterChunk(hash, s, action, number, data, io);
            && (reply == Failed <==> !Accepts(s, action, data, io)
                                     || (number == session.plan.total
                                         && (hash(session.hashed + data.value) != session.plan.expected || part !in s.files || !io.rename)))
            && (reply == Failed ==> s'.sessions == s.sessions - {action} && OnlyPartGone(s, s', part, session.handle, io.unlink))
  {
  }

  /**
   * In every run: a chunk that fails removes its session, publishes nothing and leaves every other path and file alone.
   * The file it takes from the part path is the session's own exactly when no other init of its package opened the
   * path since the session's own init; otherwise it is the file of such an init.
   */
  lemma {:induction false} FailureCleansUp(
      hash: Bytes -> string, s0: State, steps: seq<Step>, action: string, number: int, data: Option<Bytes>, io: Io) returns (i: nat)
    requires Starts(s0) && action in Run(hash, s0, steps).sessions
    requires AfterChunk(hash, Run(hash, s0, steps), action, number, data, io).1 == Failed
    ensures var s := Run(hash, s0, steps);
            var session := s.sessions[action];
            var part := Part(session.plan.package);
            var s' := AfterChunk(hash, s, action, number, data, io).0;
            && s'.sessions == s.sessions - {action} && OnlyPartGone(s, s', part, session.handle, io.unlink)
            && IsOwnInit(steps, action, session.plan, i)
            && (part in s.files ==> (s.files[part] == session.handle <==> OnlyOpener(steps, session.plan.package, i)))
  {
    i := PartPathTellsTheLastOpener(hash, s0, steps, action);
    FailingChunk(hash, Run(hash, s0, steps), action, number, data, io);
  }

  // ---------------------------------------------------------------- distinct package ids

  lemma {:induction false} DistinctSnoc(hash: Bytes -> string, s: State, steps: seq<Step>, step: Step)
    requires DistinctRun(hash, s, steps + [step])
    ensures DistinctRun(hash, s, steps) && Distinct(Run(hash, s, steps), step)
    decreases |steps|
  {
    if steps != [] {
      assert (steps + [step])[0] == steps[0] && (steps + [step])[1..] == steps[1..] + [step];
      DistinctSnoc(hash, After(hash, s, steps[0]), steps[1..], step);
    }
  }

  /** An init of this action and package that fails halfway: it has cleared the part path or opened it anew. */
  predicate HalfFails(step: Step, action: string, package: string) {
    step.Init? && step.action == action && step.plan.package == package && (step.end.OpenFails? || step.end.BadNumbers?)
  }

  predicate NoHalfFailure(steps: seq<Step>, action: string, package: string, i: nat) {
    forall j :: i < j < |steps| ==> !HalfFails(steps[j], action, package)
  }

  /** The session's own file is at its part path. */
  predicate HoldsOwnFile(s: State, action: string) {
    && action in s.sessions && Part(s.sessions[action].plan.package) in s.files
    && s.files[Part(s.sessions[action].plan.package)] == s.sessions[action].handle
  }

  lemma {:induction false} StepOnOwnFile(hash: Bytes -> string, s: State, step: Step, action: string)
    requires Inv(hash, s) && Distinct(s, step) && action in After(hash, s, step).sessions
    requires !(step.Init? && step.action == action && step.end.Ready?)
    ensures action in s.sessions && After(hash, s, step).sessions[action].plan == s.sessions[action].plan
    ensures HoldsOwnFile(After(hash, s, step), action)
            <==> HoldsOwnFile(s, action) && !HalfFails(step, action, s.sessions[action].plan.package)
  {
    StepOnSession(hash, s, step, action);
    if !step.Restart? && step.action != action {
      OthersLeaveSession(hash, s, step, action);
    }
  }

  lemma {:induction false} HalfFailureSnoc(steps: seq<Step>, step: Step, action: string, package: string, i: nat)
    requires i < |steps|
    ensures NoHalfFailure(steps + [step], action, package, i) <==> NoHalfFailure(steps, action, package, i) && !HalfFails(step, action, package)
  {
    assert (steps + [step])[|steps|] == step;
    assert forall j :: 0 <= j < |steps| ==> (steps + [step])[j] == steps[j];
  }

  lemma {:induction false} OwnFileUntilHalfFailure(hash: Bytes -> string, s0: State, steps: seq<Step>, action: string) returns (i: nat)
    requires Starts(s0) && DistinctRun(hash, s0, steps) && action in Run(hash, s0, steps).sessions
    ensures var s := Run(hash, s0, steps);
            var plan := s.sessions[action].plan;
            IsOwnInit(steps, action, plan, i) && (HoldsOwnFile(s, action) <==> NoHalfFailure(steps, action, plan.package, i))
    decreases |steps|
  {
    if steps == [] {
      assert false;
    }
    var n := |steps| - 1;
    var front, step := steps[..n], steps[n];
    assert steps == front + [step];
    RunSnoc(hash, s0, front, step);
    DistinctSnoc(hash, s0, front, step);
    var s := Run(hash, s0, front);
    if step.Init? && step.action == action && step.end.Ready? {
      i := n;
    } else {
      RunKeepsInv(hash, s0, front);
      StepOnOwnFile(hash, s, step, action);
      i := OwnFileUntilHalfFailure(hash, s0, front, action);
      OwnInitSnoc(front, step, action, s.sessions[action].plan, i);
      HalfFailureSnoc(front, step, action, s.sessions[action].plan.package, i);
    }
  }

  /**
   * With distinct package ids, in every run: the part path of a live session holds the session's own file exactly
   * when no init of its action and package has failed halfway since the session's own init. That file is the
   * concatenation of the accepted chunks, is what was hashed, and has the counted length.
   */
  lemma {:induction false} PartHoldsTheAcceptedChunks(hash: Bytes -> string, s0: State, steps: seq<Step>, action: string) returns (i: nat)
    requires Starts(s0) && DistinctRun(hash, s0, steps) && action in Run(hash, s0, steps).sessions
    ensures var s := Run(hash, s0, steps);
            var session := s.sessions[action];
            && IsOwnInit(steps, action, session.plan, i)
            && (HoldsOwnFile(s, action) <==> NoHalfFailure(steps, action, session.plan.package, i))
            && session.handle < |s.content|
            && s.content[session.handle] == Concat(session.accepted) == session.hashed && |session.hashed| == session.written
  {
    i := OwnFileUntilHalfFailure(hash, s0, steps, action);
    RunKeepsInv(hash, s0, steps);
    assert GoodSession(Run(hash, s0, steps).content, Run(hash, s0, steps).sessions[action]);
  }

  /** An init repeated for a live session whose numbers do not convert leaves that session registered over an empty file. */
  lemma {:induction false} BadReinitEmptiesThePart(hash: Bytes -> string, s: State, plan: Plan, bad: Plan, io: Io)
    requires Starts(s) && plan.total > 1 && bad.package == plan.package && io.write
    ensures var steps := [Init("a", plan, Ready), Chunk("a", 1, Some([7]), io), Init("a", bad, BadNumbers)];
            var s' := Run(hash, s, steps);
            && DistinctRun(hash, s, steps) && "a" in s'.sessions && s'.sessions["a"].accepted == [[7]]
            && Part(plan.package) in s'.files && s'.files[Part(plan.package)] < |s'.content|
            && s'.content[s'.files[Part(plan.package)]] == []
  {
    var first, second, third := Init("a", plan, Ready), Chunk("a", 1, Some([7]), io), Init("a", bad, BadNumbers);
    var s1 := After(hash, s, first);
    var s2 := After(hash, s1, second);
    assert [first, second, third][1..] == [second, third] && [second, third][1..] == [third] && [third][1..] == [];
    assert Run(hash, s, [first, second, third]) == Run(hash, s1, [second, third]) == Run(hash, s2, [third]) == After(hash, s2, third);
    var empty, taken := Session(plan, |s.content|, true, [], 0, []), Session(plan, |s.content|, true, [7], 1, [[7]]);
    assert s1.sessions == map["a" := empty];
    assert Taken(empty, [7]) == taken by {
      var none: Bytes := [];
      assert none + [7] == [7];
    }
    assert s2.sessions == map["a" := taken];
    assert DistinctRun(hash, s2, [third]) && DistinctRun(hash, s1, [second, third]);
  }

  // ---------------------------------------------------------------- a shared id publishes the other's bytes

  /** Two transfers of one package id publish bytes nobody checked: here an empty file under the hash of `[1]`. */
  lemma {:induction false} SharedPackageIdPublishesUnverified(hash: Bytes -> string, s: State, io: Io)
    requires Starts(s) && hash([1]) != hash([]) && io.write && io.rename
    ensures var plan := Plan("p", DeployPackage, "p.zip", hash([1]), 1);
            var steps := [Init("a", plan, Ready), Init("b", plan, Ready), Chunk("a", 1, Some([1]), io)];
            var s' := Run(hash, s, steps);
            && Zip("p") in s'.finals && Zip("p") in s'.files && s'.files[Zip("p")] < |s'.content|
            && s'.finals[Zip("p")] == hash([1]) && s'.content[s'.files[Zip("p")]] == []
  {
    var plan := Plan("p", DeployPackage, "p.zip", hash([1]), 1);
    var first, second, third := Init("a", plan, Ready), Init("b", plan, Ready), Chunk("a", 1, Some([1]), io);
    var s1 := After(hash, s, first);
    var s2 := After(hash, s1, second);
    var s3 := After(hash, s2, third);
    assert [first, second, third][1..] == [second, third] && [second, third][1..] == [third] && [third][1..] == [];
    assert s2.sessions["a"].handle == |s.content| && s2.files[Part("p")] == |s.content| + 1;
    var none: Bytes := [];
    assert none + [1] == [1];
    assert Run(hash, s, [first, second, third]) == Run(hash, s1, [second, third]) == Run(hash, s2, [third]) == s3;
  }

  // ---------------------------------------------------------------- the sessions as the agent keeps them

  /** The session table over the disk; `finals` only remembers what was announced. */
  class PackageSessions {
    var files: Files
    var content: seq<Bytes>
    var sessions: Sessions
    ghost var finals: map<Path, string>

    ghost function Now(): State
      reads this
    {
      State(files, content, sessions, finals)
    }

    constructor (found: Files, bytes: seq<Bytes>)
      requires GoodDisk(found, bytes)
      ensures Now() == State(found, bytes, map[], map[]) && Starts(Now())
    {
      files, content, sessions, finals := found, bytes, map[], map[];
    }

    /** `clears`, `opens` and `numbers` say whether these steps succeed. */
    method HandleInit(action: string, plan: Plan, checks: bool, clears: bool, opens: bool, numbers: bool) returns (reply: Reply)
      modifies this
      ensures Now() == AfterInit(old(Now()), action, plan,
                if !checks || (!clears && Part(plan.package) in old(files)) then Refused
                else if !opens then OpenFails else if !numbers then BadNumbers else Ready)
      ensures reply == Done <==> checks && (clears || Part(plan.package) !in old(files)) && opens && numbers
    {
      reply := Failed;
      if !checks {
        return;
      }
      var part := Part(plan.package);
      if part in files {
        if !clears {
          return;
        }
        files := files - {part};
      }
      if !opens {
        assert files == old(files) - {part};
        return;
      }
      var handle := |content|;
      files, content := files[part := handle], content + [[]];
      assert files == old(files)[part := handle];
      if action in sessions {
        sessions := sessions[action := sessions[action].(open := false)];
      }
      if !numbers {
        return;
      }
      sessions := sessions[action := Session(plan, handle, true, [], 0, [])];
      reply := Done;
    }

    method ProcessChunk(hash: Bytes -> string, action: string, number: int, data: Option<Bytes>, io: Io) returns (reply: Reply)
      requires forall a :: a in sessions ==> sessions[a].handle < |content|
      modifies this
      ensures (Now(), reply) == AfterChunk(hash, old(Now()), action, number, data, io)
    {
      if action !in sessions {
        return Failed;
      }
      var session := sessions[action];
      if !session.open || data.None? || !io.write {
        if session.open && data.Some? {
          content := content[session.handle := content[session.handle] + io.torn];
        } else {
          assert content[session.handle] + [] == content[session.handle];
          assert content[session.handle := content[session.handle]] == content;
        }
        Drop(action, io.unlink);
        return Failed;
      }
      content := content[session.handle := content[session.handle] + data.value];
      session := Taken(session, data.value);
      sessions := sessions[action := session];
      if number != session.plan.total {
        return Nothing;
      }
      reply := Complete(hash, action, io);
    }

    method Drop(action: string, unlink: bool)
      requires action in sessions
      modifies this
      ensures Now() == Dropped(old(Now()), action, unlink)
    {
      if unlink {
        files := files - {Part(sessions[action].plan.package)};
      }
      sessions := sessions - {action};
    }

    method Complete(hash: Bytes -> string, action: string, io: Io) returns (reply: Reply)
      requires action in sessions
      modifies this
      ensures (Now(), reply) == Completed(hash, old(Now()), action, io)
    {
      var session := sessions[action];
      var plan := session.plan;
      var part := Part(plan.package);
      if hash(session.hashed) == plan.expected && part in files && io.rename {
        files := (files - {part})[FinalPath(plan) := files[part]];
        finals := finals[FinalPath(plan) := plan.expected];
        sessions := sessions - {action};
        return Done;
      }
      Drop(action, io.unlink);
      reply := Failed;
    }
  }
}
