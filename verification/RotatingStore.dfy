/** The size-bounded rotating JSON store and its refinement of one append-only log. */
module RotatingStoreModel {
  import opened Prelude

  /** The active file, if it exists, and the numbered siblings it was rotated to. */
  datatype Files<R> = Files(base: Option<seq<R>>, rotated: map<nat, seq<R>>)

  /**
   One `atomic_write_json`: it replaces the file and returns, or raises.
   An error reported after the replacement took effect is allowed for.
   */
  datatype Write = Written | Failed | FailedAfterReplacing

  const MAX_RETRIES: nat := 3

  // ---------------------------------------------------------------- reading

  function ActiveRecords<R>(files: Files<R>): seq<R> {
    if files.base.Some? then files.base.value else []
  }

  /** The records of the siblings numbered from `i` on, up to the first number that is missing. */
  function ReadFrom<R>(rotated: map<nat, seq<R>>, i: nat): seq<R>
    decreases |NumbersFrom(rotated, i)|
  {
    if i in rotated then
      assert NumbersFrom(rotated, i + 1) < NumbersFrom(rotated, i) by {
        assert i in NumbersFrom(rotated, i) && i !in NumbersFrom(rotated, i + 1);
      }
      SmallerSet(NumbersFrom(rotated, i + 1), NumbersFrom(rotated, i));
      rotated[i] + ReadFrom(rotated, i + 1)
    else []
  }

  /** The numbers in use from `i` on. */
  function NumbersFrom<R>(rotated: map<nat, seq<R>>, i: nat): set<nat> { set k | k in rotated && k >= i }

  lemma {:induction false} SmallerSet<T>(a: set<T>, b: set<T>)
    requires a < b
    ensures |a| < |b|
  {
    var x :| x in b && x !in a;
    assert a <= b - {x};
    SubsetSize(a, b - {x});
  }

  lemma {:induction false} SubsetSize<T>(a: set<T>, b: set<T>)
    requires a <= b
    ensures |a| <= |b|
  {
    if a != {} {
      var x :| x in a;
      SubsetSize(a - {x}, b - {x});
    }
  }

  /** What `read_all_including_rotated` returns: the log the files stand for. */
  function Log<R>(files: Files<R>): seq<R> {
    ReadFrom(files.rotated, 1) + ActiveRecords(files)
  }

  // ---------------------------------------------------------------- rotating and writing

  /** The numbers in use are 1 to `n`. */
  ghost predicate Contiguous<R>(rotated: map<nat, seq<R>>, n: nat) {
    forall k :: k in rotated <==> 1 <= k <= n
  }

  ghost predicate WellNumbered<R>(files: Files<R>) {
    exists n: nat :: Contiguous(files.rotated, n)
  }

  /** The first unused number from `i` on. */
  function NextIndex<R>(rotated: map<nat, seq<R>>, i: nat): (next: nat)
    ensures next >= i && next !in rotated
    ensures forall k :: i <= k < next ==> k in rotated
    decreases |NumbersFrom(rotated, i)|
  {
    if i !in rotated then i
    else
      assert NumbersFrom(rotated, i + 1) < NumbersFrom(rotated, i) by {
        assert i in NumbersFrom(rotated, i) && i !in NumbersFrom(rotated, i + 1);
      }
      SmallerSet(NumbersFrom(rotated, i + 1), NumbersFrom(rotated, i));
      NextIndex(rotated, i + 1)
  }

  /** The active file moved to the next free number. */
  function Rotate<R>(files: Files<R>): Files<R>
    requires files.base.Some?
  {
    Files(None, files.rotated[NextIndex(files.rotated, 1) := files.base.value])
  }

  /** Whether `append_many` rotates first. */
  predicate MustRotate<R>(size: seq<R> -> nat, maxBytes: int, files: Files<R>) {
    files.base.Some? && size(files.base.value) >= maxBytes
  }

  function Prepared<R>(size: seq<R> -> nat, maxBytes: int, files: Files<R>): Files<R> {
    if MustRotate(size, maxBytes, files) then Rotate(files) else files
  }

  function WithBatch<R>(files: Files<R>, batch: seq<R>): Files<R> {
    files.(base := Some(ActiveRecords(files) + batch))
  }

  // ---------------------------------------------------------------- refinement of the log

  lemma {:induction false} ReadFromPrefix<R>(rotated: map<nat, seq<R>>, i: nat, n: nat, content: seq<R>)
    requires i <= n && n !in rotated && (forall k :: i <= k < n ==> k in rotated) && n + 1 !in rotated
    ensures ReadFrom(rotated[n := content], i) == ReadFrom(rotated, i) + content
    decreases n - i
  {
    if i < n {
      ReadFromPrefix(rotated, i + 1, n, content);
      assert rotated[i] + (ReadFrom(rotated, i + 1) + content) == (rotated[i] + ReadFrom(rotated, i + 1)) + content;
    } else {
      assert ReadFrom(rotated[n := content], n + 1) == [];
      assert ReadFrom(rotated, n) == [];
    }
  }

  /** Rotation takes the next number and leaves the log as it was. */
  lemma {:induction false} RotationKeepsLog<R>(files: Files<R>)
    requires files.base.Some? && WellNumbered(files)
    ensures WellNumbered(Rotate(files)) && Log(Rotate(files)) == Log(files)
  {
    var n: nat :| Contiguous(files.rotated, n);
    var next := NextIndex(files.rotated, 1);
    assert n + 1 !in files.rotated;
    assert next == n + 1;
    assert Contiguous(Rotate(files).rotated, n + 1);
    ReadFromPrefix(files.rotated, 1, next, files.base.value);
  }

  lemma {:induction false} BatchExtendsLog<R>(files: Files<R>, batch: seq<R>)
    requires WellNumbered(files)
    ensures WellNumbered(WithBatch(files, batch)) && Log(WithBatch(files, batch)) == Log(files) + batch
  {
    var n: nat :| Contiguous(files.rotated, n);
    assert Contiguous(WithBatch(files, batch).rotated, n);
    assert ReadFrom(files.rotated, 1) + (ActiveRecords(files) + batch) == ReadFrom(files.rotated, 1) + ActiveRecords(files) + batch;
  }

  /** What the disk holds when an append stops: untouched, rotated only, or with the batch written. */
  datatype Progress = Untouched | RotatedOnly | BatchWritten

  function After<R>(size: seq<R> -> nat, maxBytes: int, files: Files<R>, batch: seq<R>, p: Progress): Files<R> {
    match p
    case Untouched => files
    case RotatedOnly => Prepared(size, maxBytes, files)
    case BatchWritten => WithBatch(Prepared(size, maxBytes, files), batch)
  }

  /** At every point where an append may crash or fail, the log is the old one or the old one and the whole batch. */
  lemma {:induction false} AppendIsAtomicOnTheLog<R>(size: seq<R> -> nat, maxBytes: int, files: Files<R>, batch: seq<R>, p: Progress)
    requires WellNumbered(files)
    ensures WellNumbered(After(size, maxBytes, files, batch, p))
    ensures Log(After(size, maxBytes, files, batch, p)) == if p.BatchWritten? then Log(files) + batch else Log(files)
  {
    if MustRotate(size, maxBytes, files) {
      RotationKeepsLog(files);
    }
    BatchExtendsLog(Prepared(size, maxBytes, files), batch);
  }

  /** An append of a run, and how far it got before it returned, failed or the client crashed. */
  datatype Append<R> = Append(batch: seq<R>, progress: Progress)

  function RunAppends<R>(size: seq<R> -> nat, maxBytes: int, files: Files<R>, appends: seq<Append<R>>): Files<R>
    decreases |appends|
  {
    if appends == [] then files
    else
      var n := |appends| - 1;
      After(size, maxBytes, RunAppends(size, maxBytes, files, appends[..n]), appends[n].batch, appends[n].progress)
  }

  /** The batches that took effect, in order. */
  function Effective<R>(appends: seq<Append<R>>): seq<R>
    decreases |appends|
  {
    if appends == [] then []
    else
      var n := |appends| - 1;
      Effective(appends[..n]) + (if appends[n].progress.BatchWritten? then appends[n].batch else [])
  }

  /** Over any run of successful, failing and crashing appends the files stand for one append-only log. */
  lemma {:induction false} StoreRefinesLog<R>(size: seq<R> -> nat, maxBytes: int, files: Files<R>, appends: seq<Append<R>>)
    requires WellNumbered(files)
    ensures WellNumbered(RunAppends(size, maxBytes, files, appends))
    ensures Log(RunAppends(size, maxBytes, files, appends)) == Log(files) + Effective(appends)
    decreases |appends|
  {
    if appends != [] {
      var n := |appends| - 1;
      StoreRefinesLog(size, maxBytes, files, appends[..n]);
      AppendIsAtomicOnTheLog(size, maxBytes, RunAppends(size, maxBytes, files, appends[..n]), appends[n].batch, appends[n].progress);
      assert Log(files) + (Effective(appends[..n]) + appends[n].batch) == (Log(files) + Effective(appends[..n])) + appends[n].batch;
    }
  }

  // ---------------------------------------------------------------- when it rotates

  /** The active file has reached the limit, so that the next append rotates it. */
  predicate Full<R>(size: seq<R> -> nat, maxBytes: int, files: Files<R>) {
    match files.base case None => false case Some(records) => maxBytes <= size(records)
  }

  /** A completed append puts its batch into a fresh file exactly if the active one was full, which then gets the least free number. */
  lemma {:induction false} RotatesExactlyWhenFull<R>(size: seq<R> -> nat, maxBytes: int, files: Files<R>, batch: seq<R>)
    ensures var after := After(size, maxBytes, files, batch, BatchWritten);
            if Full(size, maxBytes, files) then
              && after.base == Some(batch)
              && exists n: nat :: n >= 1 && n !in files.rotated && (forall k :: 1 <= k < n ==> k in files.rotated)
                                  && after.rotated == files.rotated[n := files.base.value]
            else
              && after.rotated == files.rotated
              && after.base == Some((if files.base.Some? then files.base.value else []) + batch)
  {
    if Full(size, maxBytes, files) {
      var n := NextIndex(files.rotated, 1);
      assert forall k :: 1 <= k < n ==> k in files.rotated;
      assert [] + batch == batch;
    }
  }

  /** An append that takes the active file over the limit does not rotate it: here three records in a file of two. */
  lemma {:induction false} ActiveFileOutgrowsTheLimit<R>(x: R)
    ensures var size := (records: seq<R>) => |records|;
            var files := After(size, 2, Files(Some([x]), map[]), [x, x], BatchWritten);
            files.rotated == map[] && files.base == Some([x, x, x]) && size(files.base.value) > 2
  {
    assert [x] + [x, x] == [x, x, x];
  }

  ghost predicate RotatedAreFull<R>(size: seq<R> -> nat, maxBytes: int, files: Files<R>) {
    forall k :: k in files.rotated ==> maxBytes <= size(files.rotated[k])
  }

  /** Over every run no file is rotated away before it is full. */
  lemma {:induction false} NothingIsRotatedEarly<R>(size: seq<R> -> nat, maxBytes: int, files: Files<R>, appends: seq<Append<R>>)
    requires RotatedAreFull(size, maxBytes, files)
    ensures RotatedAreFull(size, maxBytes, RunAppends(size, maxBytes, files, appends))
    decreases |appends|
  {
    if appends != [] {
      NothingIsRotatedEarly(size, maxBytes, files, appends[..|appends| - 1]);
    }
  }

  // ---------------------------------------------------------------- the object

  /** Reads the numbered files of one store, oldest first, and the active file last. */
  method ReadAllIncludingRotated<R>(files: Files<R>) returns (records: seq<R>)
    ensures records == Log(files)
  {
    records := [];
    var index := 1;
    while index in files.rotated
      invariant records + ReadFrom(files.rotated, index) == ReadFrom(files.rotated, 1)
      decreases |NumbersFrom(files.rotated, index)|
    {
      assert records + (files.rotated[index] + ReadFrom(files.rotated, index + 1)) ==
             (records + files.rotated[index]) + ReadFrom(files.rotated, index + 1);
      records := records + files.rotated[index];
      assert index in NumbersFrom(files.rotated, index) && index !in NumbersFrom(files.rotated, index + 1);
      SmallerSet(NumbersFrom(files.rotated, index + 1), NumbersFrom(files.rotated, index));
      index := index + 1;
    }
    records := records + ActiveRecords(files);
  }

  class RotatingStore<R> {
    const size: seq<R> -> nat
    const maxBytes: int
    var base: Option<seq<R>>
    var rotated: map<nat, seq<R>>

    function OnDisk(): Files<R>
      reads this
    {
      Files(base, rotated)
    }

    constructor (size: seq<R> -> nat, maxBytes: int, files: Files<R>)
      ensures this.size == size && this.maxBytes == maxBytes && OnDisk() == files
    {
      this.size, this.maxBytes := size, maxBytes;
      base, rotated := files.base, files.rotated;
    }

    method NextRotationIndex() returns (index: nat)
      ensures index == NextIndex(rotated, 1)
    {
      index := 1;
      while index in rotated
        invariant NextIndex(rotated, index) == NextIndex(rotated, 1)
        decreases |NumbersFrom(rotated, index)|
      {
        assert index in NumbersFrom(rotated, index) && index !in NumbersFrom(rotated, index + 1);
        SmallerSet(NumbersFrom(rotated, index + 1), NumbersFrom(rotated, index));
        index := index + 1;
      }
    }

    /**
     `atomic_write_json_with_retry` on the active file. It returns true exactly when some attempt returned;
     however many attempts replaced the file, its content is written once.
     */
    method WriteWithRetry(content: seq<R>, writes: seq<Write>) returns (ok: bool)
      requires |writes| == 4
      modifies this`base
      ensures ok <==> Written in writes
      ensures base == old(base) || base == Some(content)
      ensures ok ==> base == Some(content)
      ensures (forall i :: 0 <= i < |writes| ==> writes[i] == Failed) ==> base == old(base)
    {
      var attempt := 0;
      while attempt <= MAX_RETRIES
        invariant 0 <= attempt <= |writes|
        invariant Written !in writes[..attempt]
        invariant base == old(base) || base == Some(content)
        invariant (forall i :: 0 <= i < attempt ==> writes[i] == Failed) ==> base == old(base)
      {
        assert writes[attempt] in writes[..attempt + 1];
        if !writes[attempt].Failed? {
          base := Some(content);
        }
        if writes[attempt].Written? {
          return true;
        }
        attempt := attempt + 1;
      }
      assert writes[..|writes|] == writes;
      ok := false;
    }

    /**
     `append_many`; `renamed` says whether the rotation's rename succeeds, `progress` how far the call got.
     It returns normally only if the batch is on disk, whole and once.
     */
    method AppendMany(batch: seq<R>, renamed: bool, writes: seq<Write>) returns (ok: bool, ghost progress: Progress)
      requires |writes| == 4
      requires WellNumbered(OnDisk())
      modifies this
      ensures OnDisk() == After(size, maxBytes, old(OnDisk()), batch, progress)
      ensures WellNumbered(OnDisk())
      ensures Log(OnDisk()) == old(Log(OnDisk())) || Log(OnDisk()) == old(Log(OnDisk())) + batch
      ensures ok ==> Log(OnDisk()) == old(Log(OnDisk())) + batch
      ensures (forall i :: 0 <= i < |writes| ==> writes[i] == Failed) ==> Log(OnDisk()) == old(Log(OnDisk()))
    {
      ghost var before := OnDisk();
      progress := Untouched;
      if batch == [] {
        return true, progress;
      }
      forall p
        ensures WellNumbered(After(size, maxBytes, before, batch, p))
        ensures Log(After(size, maxBytes, before, batch, p)) == if p.BatchWritten? then Log(before) + batch else Log(before)
      {
        AppendIsAtomicOnTheLog(size, maxBytes, before, batch, p);
      }
      var existing: seq<R> := [];
      if base.Some? {
        if size(base.value) >= maxBytes {
          var index := NextRotationIndex();
          if !renamed {
            return false, progress;
          }
          rotated, base := rotated[index := base.value], None;
        } else {
          existing := base.value;
        }
      }
      assert OnDisk() == Prepared(size, maxBytes, before);
      existing := existing + batch;
      ok := WriteWithRetry(existing, writes);
      progress := if base == Some(existing) then BatchWritten else RotatedOnly;
    }
  }
}
