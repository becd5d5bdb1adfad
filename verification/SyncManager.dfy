/** The manager object: each locked region of the source is a method proved against the step relation. */
module SyncManagerObject {
  import opened Prelude
  import opened Text
  import opened SyncProtocol

  /** The list is written, the pending file removed and the worker about to end. */
  function MarkedState(cfg: Config, s: State, t: ThreadId, readOk: bool, unlinkOk: bool): State
    requires t in s.mem.threads
  {
    var w := s.mem.threads[t].payload.windowId;
    State(Disk(if unlinkOk then s.disk.pending - {cfg.key(w)} else s.disk.pending, Marked(Load(s.disk, readOk), w)),
          s.mem.(threads := s.mem.threads[t := s.mem.threads[t].(pc := Exiting)]),
          s.hist.(clock := s.hist.clock + 2))
  }

  /** The two file operations of `_mark_completed`, nothing in between. */
  lemma {:induction false} MarkedAndUnlinked(cfg: Config, s: State, t: ThreadId, readOk: bool, unlinkOk: bool)
    requires WorkEnabled(s.mem, t, WriteCompleted(readOk, true)) && s.mem.lock.None?
    ensures var written := Next(cfg, s, Work(t, WriteCompleted(readOk, true)));
            && Enabled(written, Work(t, Unlink(unlinkOk)))
            && Next(cfg, written, Work(t, Unlink(unlinkOk))) == MarkedState(cfg, s, t, readOk, unlinkOk)
  {
  }

  /** The list that cannot be written. */
  lemma {:induction false} NotMarked(cfg: Config, s: State, t: ThreadId, readOk: bool)
    requires WorkEnabled(s.mem, t, WriteCompleted(readOk, false))
    ensures Next(cfg, s, Work(t, WriteCompleted(readOk, false))) ==
            State(s.disk, s.mem.(threads := s.mem.threads[t := s.mem.threads[t].(pc := Exiting)]), s.hist.(clock := s.hist.clock + 1))
  {
  }

  class SyncManager {
    const cfg: Config
    // on disk
    var pending: map<FileName, Payload>
    var completed: seq<WindowId>
    // in memory
    var workers: map<WindowId, ThreadId>
    var threads: map<ThreadId, Worker>
    var ackEvents: map<WindowId, ThreadId>
    var signalled: set<ThreadId>
    var ackResults: map<WindowId, string>
    var nextThread: ThreadId
    ghost var hist: History

    /** The protocol state between two locked regions of this object. */
    ghost function Abs(): State
      reads this
    {
      State(Disk(pending, completed),
            Memory(workers, threads, ackEvents, signalled, ackResults, {}, None),
            hist.(nextThread := nextThread))
    }

    constructor (cfg: Config)
      ensures this.cfg == cfg && Abs() == INITIAL
    {
      this.cfg := cfg;
      pending, completed := map[], [];
      workers, threads, ackEvents, signalled, ackResults, nextThread := map[], map[], map[], {}, map[], 0;
      hist := INITIAL.hist;
    }

    method LoadCompleted(readOk: bool) returns (value: seq<WindowId>)
      ensures value == Load(Abs().disk, readOk)
    {
      value := if readOk then completed else [];
    }

    method EnqueuePayload(p: Payload, readOk: bool, writeOk: bool) returns (returned: bool)
      modifies this
      ensures (Abs(), returned) == Enqueued(cfg, old(Abs()), p, readOk, writeOk)
    {
      var loaded := LoadCompleted(readOk);
      if p.windowId in loaded {
        return true;
      }
      if !writeOk {
        return false;
      }
      pending := pending[cfg.key(p.windowId) := p];
      hist := hist.(known := hist.known + {p.windowId});
      if !(p.windowId in workers && workers[p.windowId] in threads) {
        threads := threads[nextThread := Worker(p, Registering, 0, 0.0, 0)];
        workers := workers[p.windowId := nextThread];
        nextThread := nextThread + 1;
      }
      returned := true;
    }

    method HandleWindowClosed(p: Payload, readOk: bool, writeOk: bool) returns (returned: bool)
      modifies this
      ensures Abs() == Next(cfg, old(Abs()), WindowClosed(p, readOk, writeOk))
      ensures returned ==> p.windowId in Abs().hist.handed
    {
      returned := EnqueuePayload(p, readOk, writeOk);
      if returned {
        hist := hist.(handed := hist.handed + {p.windowId});
      }
      hist := hist.(clock := hist.clock + 1);
    }

    method HandleAck(w: WindowId, status: string) returns (known: bool)
      modifies this
      ensures Abs() == Next(cfg, old(Abs()), SyncProtocol.HandleAck(w, status))
      ensures known == Acked(old(Abs()), w, status, true).1
    {
      var lowered := Lower(status);
      if lowered != "ack" && lowered != "nack" {
        known := false;
      } else if w !in ackEvents {
        var loaded := LoadCompleted(true);
        known := w in loaded;
      } else {
        ackResults := ackResults[w := status];
        signalled := signalled + {ackEvents[w]};
        hist := if status == "ack" then hist.(ackAt := hist.ackAt[w := hist.clock]) else hist;
        known := true;
      }
      hist := hist.(clock := hist.clock + 1);
    }

    /**
     `_mark_completed` run by worker `t`: the list first, the pending file after it. A failed write of the list is
     raised and ends the worker with nothing changed on disk.
     */
    method MarkCompleted(t: ThreadId, readOk: bool, writeOk: bool, unlinkOk: bool) returns (raised: bool)
      requires WorkEnabled(Abs().mem, t, WriteCompleted(readOk, true))
      modifies this
      ensures raised == !writeOk
      ensures raised ==> Abs() == Next(cfg, old(Abs()), Work(t, WriteCompleted(readOk, false)))
      ensures !raised ==>
                var written := Next(cfg, old(Abs()), Work(t, WriteCompleted(readOk, true)));
                Enabled(written, Work(t, Unlink(unlinkOk))) && Abs() == Next(cfg, written, Work(t, Unlink(unlinkOk)))
    {
      raised := !writeOk;
      if raised {
        NotMarked(cfg, old(Abs()), t, readOk);
        threads := threads[t := threads[t].(pc := Exiting)];
        hist := hist.(clock := hist.clock + 1);
        return;
      }
      MarkedAndUnlinked(cfg, Abs(), t, readOk, unlinkOk);
      WriteAndUnlink(t, readOk, unlinkOk);
    }

    method WriteAndUnlink(t: ThreadId, readOk: bool, unlinkOk: bool)
      requires t in threads
      modifies this
      ensures Abs() == MarkedState(cfg, old(Abs()), t, readOk, unlinkOk)
    {
      var w := threads[t].payload.windowId;
      var loaded := LoadCompleted(readOk);
      if w !in loaded {
        loaded := loaded + [w];
      }
      completed := if |loaded| <= COMPLETED_LIMIT then loaded else loaded[|loaded| - COMPLETED_LIMIT..];
      if unlinkOk {
        pending := pending - {cfg.key(w)};
      }
      threads := threads[t := threads[t].(pc := Exiting)];
      hist := hist.(clock := hist.clock + 2);
    }

    /** The window is done or a worker is at it. */
    ghost predicate Covered(windowId: string)
      reads this
    {
      windowId in completed || Alive(Abs().mem, windowId)
    }

    /** Enqueueing the window of this file raises: it is not listed as far as the list can be read, and the write fails. */
    predicate Raises(f: FileName, loads: FileName -> bool, writes: FileName -> bool)
      requires f in pending
      reads this
    {
      pending[f].windowId !in (if loads(f) then completed else []) && !writes(f)
    }

    /** One file of `retry_pending`. */
    method RetryOne(f: FileName, loads: FileName -> bool, writes: FileName -> bool) returns (returned: bool)
      requires f in pending && cfg.key(pending[f].windowId) == f
      requires forall t :: t in threads ==> t < nextThread
      modifies this
      ensures pending == old(pending) && completed == old(completed)
      ensures returned <==> !old(Raises(f, loads, writes))
      ensures returned ==> Covered(pending[f].windowId)
      ensures forall w :: old(Covered(w)) ==> Covered(w)
      ensures forall t :: t in old(threads) ==> t in threads && threads[t] == old(threads)[t]
      ensures forall t :: t in threads ==> t < nextThread
    {
      returned := EnqueuePayload(pending[f], loads(f), writes(f));
    }

    /**
     `retry_pending`, the files taken in any order: unreadable ones are skipped, and it raises exactly if enqueueing
     one of the others does. If it returns, every readable pending window is completed or has a live worker. No
     pending file, completed entry or running worker is touched.
     */
    method RetryPending(readable: FileName -> bool, loads: FileName -> bool, writes: FileName -> bool) returns (started: nat, raised: bool)
      requires forall f :: f in pending ==> cfg.key(pending[f].windowId) == f
      requires forall t :: t in threads ==> t < nextThread
      modifies this
      ensures pending == old(pending) && completed == old(completed)
      ensures raised <==> exists f :: f in old(pending) && readable(f) && old(Raises(f, loads, writes))
      ensures !raised ==> started == |set f | f in old(pending) && readable(f)|
      ensures !raised ==> forall f :: f in old(pending) && readable(f) ==> Covered(old(pending)[f].windowId)
      ensures forall t :: t in old(threads) ==> t in threads && threads[t] == old(threads)[t]
    {
      var files := set f | f in pending && readable(f);
      ghost var all := files;
      started, raised := 0, false;
      while files != {}
        invariant files <= all && started + |files| == |all| && !raised
        invariant pending == old(pending) && completed == old(completed)
        invariant forall f :: f in all && f !in files ==>
                    Covered(old(pending)[f].windowId) && !old(Raises(f, loads, writes))
        invariant forall t :: t in old(threads) ==> t in threads && threads[t] == old(threads)[t]
        invariant forall t :: t in threads ==> t < nextThread
        decreases |files|
      {
        var f :| f in files;
        assert f in all;
        var returned := RetryOne(f, loads, writes);
        if !returned {
          raised := true;
          return;
        }
        files := files - {f};
        started := started + 1;
      }
    }
  }

  /** What the worker finds when it reads the result of one attempt. */
  datatype Answer = NoAnswer | Answered(status: string)

  /**
   `_send_with_retries` as one worker lives it: `answers[i]` is what attempt `i` finds.
   It stops at the first exact "ack", after as many sends and the geometric sum of the sleeps in between.
   */
  method SendWithRetries(cfg: Config, answers: seq<Answer>) returns (acked: bool, sends: nat, slept: real)
    requires |answers| == cfg.maxRetries + 1
    ensures acked <==> Answered("ack") in answers
    ensures 1 <= sends <= |answers| && (acked ==> answers[sends - 1] == Answered("ack"))
    ensures Answered("ack") !in answers[..sends - 1] && (!acked ==> sends == |answers|)
    ensures slept == Backoff(cfg, sends - 1)
  {
    acked, sends, slept := false, 0, 0.0;
    var attempt := 0;
    while attempt <= cfg.maxRetries
      invariant 0 <= attempt <= |answers| && sends == attempt && !acked
      invariant Answered("ack") !in answers[..attempt]
      invariant slept == Backoff(cfg, Min(attempt, cfg.maxRetries))
    {
      sends := sends + 1;
      if answers[attempt] == Answered("ack") {
        acked := true;
        return;
      }
      if attempt < cfg.maxRetries {
        slept := slept + cfg.retryBase * (Pow2(attempt) as real);
        assert slept == Backoff(cfg, attempt + 1) by {
          var p := Pow2(attempt);
          assert Pow2(attempt + 1) == 2 * p;
          assert ((2 * p - 1) as real) == ((p - 1) as real) + (p as real);
        }
      }
      attempt := attempt + 1;
    }
  }
}
