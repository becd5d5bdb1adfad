/** The standalone updater: validation, backup, replacement, and the rollback after a failure. */
module Updater {
  import opened Prelude
  import opened Text
  import opened Wire

  type Tree = map<string, Bytes>

  /** What the source raises: a ValueError with its text, a failed dependency installation, anything else. */
  datatype Raised = ValueError(text: string) | DependencyError | OtherError

  datatype Reason = InvalidPackage | VersionInvalid | DependencyInstallFailed | ApplicationStartFailed | Rollback

  /** A field that may be missing, or of another type than text with `shown` as its text. */
  datatype Field = Missing | Text(text: string) | NotText(shown: string)

  /** `str(value)`. */
  function Shown(f: Field): string { match f case Missing => "None" case Text(text) => text case NotText(shown) => shown }

  datatype Hashes = NoHashes | NotAnObject | Hashes(entries: seq<(string, string)>)

  datatype Manifest = Manifest(version: Field, packageType: Field, minimumUpdater: Field, hashes: Hashes)

  /** A package as it unpacks: `unpacked` and `manifest` may be errors of their own. */
  datatype Package = Package(isZip: bool, unpacked: Option<Raised>, manifest: Result<Manifest, Raised>,
                             app: Option<Tree>, updater: Option<Tree>)

  // ---------------------------------------------------------------- versions

  /** `_version_tuple`: the digits of each dotted part, no digits counting as zero. */
  function VersionTuple(text: string): seq<nat> {
    Map(PartNumber, Split(Trim(IsSpace, text), '.'))
  }

  function PartNumber(part: string): nat {
    FilterMembers(IsDigit, part);
    Number(Filter(IsDigit, part))
  }

  /** The order of Python tuples. */
  predicate TupleLess(a: seq<nat>, b: seq<nat>) {
    b != [] && (a == [] || a[0] < b[0] || (a[0] == b[0] && TupleLess(a[1..], b[1..])))
  }

  lemma {:induction false} TupleLessIsATotalOrder(a: seq<nat>, b: seq<nat>, c: seq<nat>)
    ensures a == b || TupleLess(a, b) || TupleLess(b, a)
    ensures !(TupleLess(a, b) && TupleLess(b, a)) && !TupleLess(a, a)
    ensures TupleLess(a, b) && TupleLess(b, c) ==> TupleLess(a, c)
  {
    var tail := (s: seq<nat>) => if s == [] then [] else s[1..];
    if a != [] || b != [] || c != [] {
      TupleLessIsATotalOrder(tail(a), tail(b), tail(c));
      assert a != [] ==> a == [a[0]] + a[1..];
      assert b != [] ==> b == [b[0]] + b[1..];
    }
  }

  const UPDATER_VERSION := "1.0.0"

  // ---------------------------------------------------------------- validation

  predicate IsBlank(f: Field) { !f.Text? || Trim(IsSpace, f.text) == "" }

  /** `_validate_manifest`: the error it raises, if any. */
  function ManifestError(m: Manifest): Option<Raised> {
    if m.version.Missing? || m.packageType.Missing? || m.minimumUpdater.Missing? || m.hashes.NoHashes?
    then Some(ValueError("manifest is missing required fields"))
    else if m.packageType != Text("client-update") then Some(ValueError("unsupported package type"))
    else if IsBlank(m.version) then Some(ValueError("invalid application version"))
    else if !m.hashes.Hashes? then Some(ValueError("manifest.file_hashes must be an object"))
    else if TupleLess(VersionTuple(UPDATER_VERSION), VersionTuple(Shown(m.minimumUpdater)))
    then Some(ValueError("package requires a newer updater"))
    else None
  }

  // ---------------------------------------------------------------- what a manifest must say

  /** Text that is not only white space. */
  predicate HasText(f: Field) { f.Text? && exists i :: 0 <= i < |f.text| && !IsSpace(f.text[i]) }

  /** At most 1.0.0, number by number; a longer version that begins like it is a newer one. */
  predicate NotNewer(ns: seq<nat>) {
    || ns == [] || ns[0] == 0
    || (ns[0] == 1 && (|ns| == 1 || (ns[1] == 0 && (|ns| == 2 || (ns[2] == 0 && |ns| == 3)))))
  }

  /** All fields, the package type, a version, an object of hashes, and an updater version that is not newer. */
  predicate ManifestPasses(m: Manifest) {
    && m.packageType == Text("client-update") && HasText(m.version) && m.hashes.Hashes?
    && !m.minimumUpdater.Missing? && NotNewer(VersionTuple(Shown(m.minimumUpdater)))
  }

  lemma {:induction false} VersionOfNumbers(ns: seq<nat>)
    requires ns != []
    ensures VersionTuple(Join(Map(Decimal, ns), '.')) == ns
  {
    var fields := Map(Decimal, ns);
    var text := Join(fields, '.');
    forall f | f in fields
      ensures '.' !in f && f != "" && forall c :: c in f ==> IsDigit(c)
    {
      var i :| 0 <= i < |fields| && fields[i] == f;
      assert f == Decimal(ns[i]) && !IsDigit('.');
    }
    JoinOfDigits(fields);
    TrimOfTrimmed(IsSpace, text);
    SplitOfJoin(fields, '.');
    forall i | 0 <= i < |ns|
      ensures PartNumber(fields[i]) == ns[i]
    {
      FilterAll(IsDigit, Decimal(ns[i]));
      NumberOfDecimal(ns[i]);
    }
  }

  lemma {:induction false} JoinOfDigits(fields: seq<string>)
    requires fields != [] && forall f :: f in fields ==> f != "" && forall c :: c in f ==> IsDigit(c)
    ensures Join(fields, '.') != "" && Trimmed(IsSpace, Join(fields, '.'))
  {
    var text := Join(fields, '.');
    assert fields[0] in fields && fields[0][0] in fields[0];
    if |fields| == 1 {
      assert text[|text| - 1] in fields[0];
    } else {
      assert forall f :: f in fields[1..] ==> f in fields;
      JoinOfDigits(fields[1..]);
      var rest := Join(fields[1..], '.');
      assert text[0] == fields[0][0] && text[|text| - 1] == rest[|rest| - 1];
    }
  }

  /** The digits of a part are its number, whatever stands around them; a part without digits is zero. */
  lemma {:induction false} DigitsDecide(before: string, n: nat, behind: string)
    requires forall c :: c in before || c in behind ==> !IsDigit(c)
    ensures PartNumber(before + Decimal(n) + behind) == n && PartNumber(before + behind) == 0
  {
    FilterNone(IsDigit, before);
    FilterNone(IsDigit, behind);
    FilterAll(IsDigit, Decimal(n));
    FilterAppend(IsDigit, before, Decimal(n));
    FilterAppend(IsDigit, before + Decimal(n), behind);
    FilterAppend(IsDigit, before, behind);
    NumberOfDecimal(n);
    assert "" + Decimal(n) + "" == Decimal(n);
  }

  lemma {:induction false} NotNewerExactly(ns: seq<nat>)
    ensures NotNewer(ns) <==> !TupleLess(VersionTuple(UPDATER_VERSION), ns)
  {
    assert Decimal(1) == "1" && Decimal(0) == "0";
    var own: seq<nat> := [1, 0, 0];
    assert Map(Decimal, own) == ["1", "0", "0"] && Map(Decimal, own)[1..] == ["0", "0"] && ["0", "0"][1..] == ["0"];
    assert Join(Map(Decimal, own), '.') == UPDATER_VERSION;
    VersionOfNumbers(own);
    assert own[1..] == [0, 0] && own[1..][1..] == [0] && own[1..][1..][1..] == [];
    if |ns| > 0 {
      assert TupleLess(own, ns) <==> own[0] < ns[0] || (own[0] == ns[0] && TupleLess([0, 0], ns[1..]));
      if |ns| > 1 {
        assert [0, 0][1..] == [0];
        assert TupleLess([0, 0], ns[1..]) <==> 0 < ns[1] || (0 == ns[1] && TupleLess([0], ns[2..]));
        if |ns| > 2 {
          assert TupleLess([0], ns[2..]) <==> 0 < ns[2] || (0 == ns[2] && TupleLess([], ns[3..]));
        }
      }
    }
  }

  lemma {:induction false} BlankExactly(f: Field)
    ensures IsBlank(f) <==> !HasText(f)
  {
    if f.Text? {
      TrimIsEmptyExactly(IsSpace, f.text);
    }
  }

  /** The validation of a manifest passes exactly for those that say what they must. */
  lemma {:induction false} ManifestPassesExactly(m: Manifest)
    ensures ManifestError(m).None? <==> ManifestPasses(m)
  {
    BlankExactly(m.version);
    NotNewerExactly(VersionTuple(Shown(m.minimumUpdater)));
  }

  /** A manifest whose only fault may be its updater version: written as numbers, 1.0.0 and less pass, all others do not. */
  lemma {:induction false} UpdaterVersionDecides(m: Manifest, a: nat, b: nat, c: nat)
    requires m.packageType == Text("client-update") && HasText(m.version) && m.hashes.Hashes?
    requires m.minimumUpdater == Text(Join(Map(Decimal, [a, b, c]), '.'))
    ensures ManifestError(m).Some? <==> a > 1 || (a == 1 && (b > 0 || c > 0))
  {
    VersionOfNumbers([a, b, c]);
    ManifestPassesExactly(m);
  }

  // ---------------------------------------------------------------- hashes and the rest of the package

  predicate HashMatches(sha: Bytes -> string, app: Tree, name: string, expected: string) {
    name in app && Lower(sha(app[name])) == Lower(expected)
  }

  /** The error about the first file that is missing or has another hash than the manifest says. */
  function HashError(sha: Bytes -> string, app: Tree, entries: seq<(string, string)>): Option<Raised> {
    if entries == [] then None
    else if entries[0].0 !in app then Some(ValueError("manifest file is missing: " + entries[0].0))
    else if !HashMatches(sha, app, entries[0].0, entries[0].1) then Some(ValueError("hash mismatch for " + entries[0].0))
    else HashError(sha, app, entries[1..])
  }

  method VerifyHashes(sha: Bytes -> string, app: Tree, entries: seq<(string, string)>) returns (error: Option<Raised>)
    ensures error == HashError(sha, app, entries)
    ensures error.None? <==> forall e :: e in entries ==> HashMatches(sha, app, e.0, e.1)
  {
    for i := 0 to |entries|
      invariant HashError(sha, app, entries) == HashError(sha, app, entries[i..])
      invariant forall e :: e in entries[..i] ==> HashMatches(sha, app, e.0, e.1)
    {
      var name, expected := entries[i].0, entries[i].1;
      assert entries[i] in entries;
      if name !in app {
        return Some(ValueError("manifest file is missing: " + name));
      }
      if Lower(sha(app[name])) != Lower(expected) {
        return Some(ValueError("hash mismatch for " + name));
      }
      assert entries[..i + 1] == entries[..i] + [entries[i]];
    }
    assert entries[..|entries|] == entries;
    error := None;
  }

  lemma {:induction false} HashErrorMeaning(sha: Bytes -> string, app: Tree, entries: seq<(string, string)>)
    ensures HashError(sha, app, entries).None? <==> forall e :: e in entries ==> HashMatches(sha, app, e.0, e.1)
  {
    if entries != [] {
      HashErrorMeaning(sha, app, entries[1..]);
      assert entries == [entries[0]] + entries[1..];
    }
  }

  /** Everything that is checked before the client is stopped. */
  function PackageError(sha: Bytes -> string, p: Package): Option<Raised> {
    if !p.isZip then Some(ValueError("update package must be a zip file"))
    else if p.unpacked.Some? then p.unpacked
    else if p.manifest.Err? then Some(p.manifest.error)
    else if ManifestError(p.manifest.value).Some? then ManifestError(p.manifest.value)
    else if p.app.None? then Some(ValueError("package app directory is missing"))
    else HashError(sha, p.app.value, p.manifest.value.hashes.entries)
  }

  /** The reason reported for an error: a ValueError is about a version if its text mentions one or the updater. */
  function ReasonOf(e: Raised): Reason {
    match e
    case ValueError(text) =>
      if Contains(Lower(text), "version") || Contains(Lower(text), "updater") then VersionInvalid else InvalidPackage
    case DependencyError => DependencyInstallFailed
    case OtherError => ApplicationStartFailed
  }

  // ---------------------------------------------------------------- the update

  /** The installation: its app tree, the backups by version, the updater, and the calls made to the client. */
  datatype Disk = Disk(app: Option<Tree>, backups: map<string, Tree>, updater: Option<Tree>, calls: seq<Call>)

  datatype Call = Stop | Start

  /** A version file: absent, with a version ("unknown" if it is empty), or unreadable. */
  datatype VersionFile = NoVersion | Version(text: string) | Unreadable(error: Raised)

  /** A tree copy succeeds, or fails and leaves the destination as it may be. */
  datatype CopyEnd = Copied | Torn(left: Option<Tree>)

  /** How the steps that touch the system end. */
  datatype Ends = Ends(history: Option<Raised>, stop: Option<Raised>, backup: CopyEnd, replace: CopyEnd, updater: CopyEnd,
                       dependencies: Option<Raised>, start: Option<Raised>, restore: CopyEnd, restart: Option<Raised>)

  datatype Outcome = Completed(version: string, oldVersion: string) | Failed(reason: Reason, rolledBack: bool)

  /** What is at the destination of `_copy_tree` afterwards; copying nothing fails. */
  function CopyTree(source: Option<Tree>, end: CopyEnd): Option<Tree> {
    if end.Copied? then source else end.left
  }

  predicate CopyWorks(source: Option<Tree>, end: CopyEnd) { end.Copied? && source.Some? }

  /** The system as the updater finds it: the hash function, how version files read, whether a starter was given. */
  datatype World = World(sha: Bytes -> string, versionOf: Option<Tree> -> VersionFile, hasStarter: bool)

  function OldVersion(w: World, d: Disk): string {
    if w.versionOf(d.app).Version? then w.versionOf(d.app).text else "unknown"
  }

  function WithBackup(d: Disk, version: string, tree: Option<Tree>): Disk {
    d.(backups := if tree.Some? then d.backups[version := tree.value] else d.backups - {version})
  }

  function VersionError(w: World, app: Option<Tree>, version: string): Option<Raised> {
    match w.versionOf(app)
    case NoVersion => None
    case Unreadable(error) => Some(error)
    case Version(installed) =>
      if installed != "unknown" && installed != version
      then Some(ValueError("Installed version " + installed + " does not match manifest version " + version)) else None
  }

  /** From the stopping of the client on: the disk and the error that ended it, if any. */
  function Replaced(w: World, d: Disk, p: Package, e: Ends): (Disk, Option<Raised>)
    requires PackageError(w.sha, p).None?
  {
    if e.history.Some? then (d, e.history)
    else
      var d1 := d.(calls := d.calls + [Stop]);
      if e.stop.Some? then (d1, e.stop)
      else
        var d2 := WithBackup(d1, OldVersion(w, d), CopyTree(d.app, e.backup));
        if !CopyWorks(d.app, e.backup) then (d2, Some(OtherError))
        else
          var d3 := d2.(app := CopyTree(p.app, e.replace));
          if !CopyWorks(p.app, e.replace) then (d3, Some(OtherError)) else Finished(w, d3, p, e)
  }

  /** The app is replaced; the updater, the dependencies, the start and the version follow. */
  function Finished(w: World, d: Disk, p: Package, e: Ends): (Disk, Option<Raised>)
    requires PackageError(w.sha, p).None?
  {
    var d1 := if p.updater.Some? then d.(updater := CopyTree(p.updater, e.updater)) else d;
    if p.updater.Some? && !CopyWorks(p.updater, e.updater) then (d1, Some(OtherError))
    else if e.dependencies.Some? then (d1, e.dependencies)
    else
      var d2 := d1.(calls := d1.calls + [Start]);
      if e.start.Some? then (d2, e.start) else (d2, VersionError(w, d2.app, p.manifest.value.version.text))
  }

  /** `_rollback_result` with a backup directory named `version`, None before its name is known. */
  function RolledBack(w: World, d: Disk, version: Option<string>, reason: Reason, e: Ends): (Disk, Outcome) {
    if version.None? || version.value !in d.backups then (d, Failed(reason, false))
    else
      var backup := Some(d.backups[version.value]);
      var d1 := d.(app := CopyTree(backup, e.restore));
      if !CopyWorks(backup, e.restore) then (d1, Failed(Rollback, false))
      else if !w.hasStarter then (d1, Failed(reason, true))
      else
        var d2 := d1.(calls := d1.calls + [Start]);
        if e.restart.Some? then (d2, Failed(Rollback, false)) else (d2, Failed(reason, true))
  }

  /** `apply_update`. */
  function Applied(w: World, d: Disk, p: Package, e: Ends): (Disk, Outcome) {
    if PackageError(w.sha, p).Some? then RolledBack(w, d, None, ReasonOf(PackageError(w.sha, p).value), e)
    else if w.versionOf(d.app).Unreadable? then RolledBack(w, d, None, ReasonOf(w.versionOf(d.app).error), e)
    else
      var (d1, error) := Replaced(w, d, p, e);
      if error.Some? then RolledBack(w, d1, Some(OldVersion(w, d)), ReasonOf(error.value), e)
      else (d1, Completed(p.manifest.value.version.text, OldVersion(w, d)))
  }

  // ---------------------------------------------------------------- what the parts do

  lemma {:induction false} FinishedShape(w: World, d: Disk, p: Package, e: Ends)
    requires PackageError(w.sha, p).None?
    ensures var (d', error) := Finished(w, d, p, e);
            && d'.app == d.app && d'.backups == d.backups
            && d'.calls == (if Start in d'.calls[|d.calls|..] then d.calls + [Start] else d.calls)
            && (error.None? ==> d'.calls == d.calls + [Start] && VersionError(w, d.app, p.manifest.value.version.text).None?)
  {
    assert (d.calls + [Start])[|d.calls|..] == [Start];
  }

  lemma {:induction false} ReplacedShape(w: World, d: Disk, p: Package, e: Ends)
    requires PackageError(w.sha, p).None?
    ensures var ((d', error), version) := (Replaced(w, d, p, e), OldVersion(w, d));
            && (e.history.Some? || e.stop.Some? ==> error.Some? && d'.app == d.app && d'.backups == d.backups)
            && (e.history.None? && e.stop.None? && !CopyWorks(d.app, e.backup) ==>
                  error.Some? && d'.app == d.app && d'.backups == WithBackup(d, version, CopyTree(d.app, e.backup)).backups)
            && (e.history.None? && e.stop.None? && CopyWorks(d.app, e.backup) ==> d'.backups == d.backups[version := d.app.value])
            && d.calls <= d'.calls
  {
    if e.history.None? && e.stop.None? && CopyWorks(d.app, e.backup) && CopyWorks(p.app, e.replace) {
      var d2 := WithBackup(d.(calls := d.calls + [Stop]), OldVersion(w, d), CopyTree(d.app, e.backup));
      FinishedShape(w, d2.(app := CopyTree(p.app, e.replace)), p, e);
    }
  }

  lemma {:induction false} ReplacedStops(w: World, d: Disk, p: Package, e: Ends)
    requires PackageError(w.sha, p).None?
    ensures var d' := Replaced(w, d, p, e).0; e.history.None? ==> d.calls + [Stop] <= d'.calls
    ensures e.history.Some? ==> Replaced(w, d, p, e).0 == d
  {
    var d2 := WithBackup(d.(calls := d.calls + [Stop]), OldVersion(w, d), CopyTree(d.app, e.backup));
    FinishedShape(w, d2.(app := CopyTree(p.app, e.replace)), p, e);
  }

  lemma {:induction false} ReplacedCompletely(w: World, d: Disk, p: Package, e: Ends)
    requires PackageError(w.sha, p).None? && Replaced(w, d, p, e).1.None?
    ensures var (d', _) := Replaced(w, d, p, e);
            && p.app.Some? && d.app.Some? && d'.app == p.app && d'.backups == d.backups[OldVersion(w, d) := d.app.value]
            && d'.updater == (if p.updater.Some? then p.updater else d.updater)
            && d'.calls == d.calls + [Stop, Start]
  {
    var d2 := WithBackup(d.(calls := d.calls + [Stop]), OldVersion(w, d), CopyTree(d.app, e.backup));
    FinishedShape(w, d2.(app := CopyTree(p.app, e.replace)), p, e);
    assert d.calls + [Stop] + [Start] == d.calls + [Stop, Start];
  }

  /** A rollback fails, or leaves the app as the backup of that name if there is one. */
  lemma {:induction false} RolledBackShape(w: World, d: Disk, version: Option<string>, reason: Reason, e: Ends)
    ensures var (d', r) := RolledBack(w, d, version, reason, e);
            && r.Failed? && (r.reason == Rollback || r.reason == reason) && d.calls <= d'.calls && Stop !in d'.calls[|d.calls|..]
            && (reason != Rollback && r.reason != Rollback ==>
                  d'.app == if version.Some? && version.value in d.backups then Some(d.backups[version.value]) else d.app)
  {
    assert (d.calls + [Start])[|d.calls|..] == [Start];
  }

  /** What a package must be like: a readable zip with a manifest that passes and an app that has the files and hashes listed. */
  predicate PackagePasses(sha: Bytes -> string, p: Package) {
    && p.isZip && p.unpacked.None? && p.manifest.Ok? && ManifestPasses(p.manifest.value) && p.app.Some?
    && forall entry :: entry in p.manifest.value.hashes.entries ==>
         entry.0 in p.app.value && Lower(sha(p.app.value[entry.0])) == Lower(entry.1)
  }

  /** The validation passes exactly for these packages. */
  lemma {:induction false} PackagePassesExactly(sha: Bytes -> string, p: Package)
    ensures PackageError(sha, p).None? <==> PackagePasses(sha, p)
  {
    if p.manifest.Ok? {
      ManifestPassesExactly(p.manifest.value);
      if p.app.Some? && p.manifest.value.hashes.Hashes? {
        HashErrorMeaning(sha, p.app.value, p.manifest.value.hashes.entries);
      }
    }
  }

  /** The first listed file that is missing or changed. */
  predicate IsFirstBad(sha: Bytes -> string, app: Tree, entries: seq<(string, string)>, i: nat) {
    && i < |entries| && !(entries[i].0 in app && Lower(sha(app[entries[i].0])) == Lower(entries[i].1))
    && forall j :: 0 <= j < i ==> entries[j].0 in app && Lower(sha(app[entries[j].0])) == Lower(entries[j].1)
  }

  lemma {:induction false} HashErrorReason(sha: Bytes -> string, app: Tree, entries: seq<(string, string)>) returns (i: nat)
    requires HashError(sha, app, entries).Some?
    ensures IsFirstBad(sha, app, entries, i)
    ensures ReasonOf(HashError(sha, app, entries).value) == (if NamesAVersion(entries[i].0) then VersionInvalid else InvalidPackage)
  {
    FileErrorReason(entries[0].0);
    i := 0;
    if HashMatches(sha, app, entries[0].0, entries[0].1) {
      var k := HashErrorReason(sha, app, entries[1..]);
      i := k + 1;
      forall j | 0 <= j < i
        ensures entries[j].0 in app && Lower(sha(app[entries[j].0])) == Lower(entries[j].1)
      {
        assert j > 0 ==> entries[j] == entries[1..][j - 1];
      }
    }
  }

  predicate NamesAVersion(name: string) { Contains(Lower(name), "version") || Contains(Lower(name), "updater") }

  /** A text in which no 'v' and no `up....r` stands is about no version. */
  lemma {:induction false} NoVersionIn(text: string)
    requires forall i :: 0 <= i < |text| ==> !('A' <= text[i] <= 'Z') && text[i] != 'v'
    requires forall i :: 0 <= i < |text| - 6 ==> !(text[i] == 'u' && text[i + 1] == 'p' && text[i + 6] == 'r')
    ensures ReasonOf(ValueError(text)) == InvalidPackage
  {
    LowerOfLower(text);
    forall i
      ensures !OccursAt(text, "version", i) && !OccursAt(text, "updater", i)
    {
      if 0 <= i <= |text| - 7 {
        Differs(text, "version", i, 0);
        Differs(text, "updater", i, if text[i] != 'u' then 0 else if text[i + 1] != 'p' then 1 else 6);
      }
    }
    ContainsMeaning(text, "version");
    ContainsMeaning(text, "updater");
  }

  lemma {:induction false} Differs(text: string, needle: string, i: nat, k: nat)
    requires k < |needle| && i + |needle| <= |text| && text[i + k] != needle[k]
    ensures !OccursAt(text, needle, i)
  {
    assert text[i..i + |needle|][k] == text[i + k];
  }

  lemma {:induction false} EndsInVersion(text: string, front: string, word: string)
    requires text == front + word && forall i :: 0 <= i < |text| ==> !('A' <= text[i] <= 'Z')
    requires word == "version" || word == "updater"
    ensures ReasonOf(ValueError(text)) == VersionInvalid
  {
    LowerOfLower(text);
    assert OccursAt(text, word, |front|);
    ContainsMeaning(text, word);
  }

  lemma {:induction false} ZipReason(text: string)
    requires text == "update package must be a zip file"
    ensures ReasonOf(ValueError(text)) == InvalidPackage
  {
    NoVersionIn(text);
  }

  lemma {:induction false} FieldsReason(text: string)
    requires text == "manifest is missing required fields"
    ensures ReasonOf(ValueError(text)) == InvalidPackage
  {
    NoVersionIn(text);
  }

  lemma {:induction false} TypeReason(text: string)
    requires text == "unsupported package type"
    ensures ReasonOf(ValueError(text)) == InvalidPackage
  {
    NoVersionIn(text);
  }

  lemma {:induction false} BlankReason(text: string)
    requires text == "invalid application version"
    ensures ReasonOf(ValueError(text)) == VersionInvalid
  {
    EndsInVersion(text, "invalid application ", "version");
  }

  lemma {:induction false} ObjectReason(text: string)
    requires text == "manifest.file_hashes must be an object"
    ensures ReasonOf(ValueError(text)) == InvalidPackage
  {
    NoVersionIn(text);
  }

  lemma {:induction false} NewerReason(text: string)
    requires text == "package requires a newer updater"
    ensures ReasonOf(ValueError(text)) == VersionInvalid
  {
    EndsInVersion(text, "package requires a newer ", "updater");
  }

  lemma {:induction false} AppReason(text: string)
    requires text == "package app directory is missing"
    ensures ReasonOf(ValueError(text)) == InvalidPackage
  {
    NoVersionIn(text);
  }

  /** The fields and the type are as they must be; the version is blank, or with an object of hashes the updater version newer. */
  predicate VersionProblemIn(m: Manifest) {
    && HasAllFields(m) && m.packageType == Text("client-update")
    && (!HasText(m.version) || (m.hashes.Hashes? && !NotNewer(VersionTuple(Shown(m.minimumUpdater)))))
  }

  predicate HasAllFields(m: Manifest) { !m.version.Missing? && !m.packageType.Missing? && !m.minimumUpdater.Missing? && !m.hashes.NoHashes? }

  /**
   * A package that unpacks and whose manifest can be read is rejected as a version problem exactly if the manifest has
   * its fields and type and either the version is blank, or an object of hashes comes with a newer updater version, or
   * all of these pass and the first bad file is named after a version or the updater.
   */
  lemma {:induction false} VersionProblemExactly(sha: Bytes -> string, p: Package)
    requires p.isZip && p.unpacked.None? && p.manifest.Ok? && PackageError(sha, p).Some?
    ensures var m := p.manifest.value;
            ReasonOf(PackageError(sha, p).value) ==
              if VersionProblemIn(m) || (ManifestPasses(m) && p.app.Some? && BadFileNamesAVersion(sha, p.app.value, m.hashes.entries))
              then VersionInvalid else InvalidPackage
  {
    var m := p.manifest.value;
    ManifestReason(m);
    AppReason("package app directory is missing");
    if ManifestError(m).None? && p.app.Some? {
      BadFileReason(sha, p.app.value, m.hashes.entries);
    }
  }

  ghost predicate BadFileNamesAVersion(sha: Bytes -> string, app: Tree, entries: seq<(string, string)>) {
    exists i: nat :: IsFirstBad(sha, app, entries, i) && NamesAVersion(entries[i].0)
  }

  lemma {:induction false} OneFirstBad(sha: Bytes -> string, app: Tree, entries: seq<(string, string)>, i: nat, j: nat)
    requires IsFirstBad(sha, app, entries, i) && IsFirstBad(sha, app, entries, j)
    ensures i == j
  {
  }

  lemma {:induction false} BadFileReason(sha: Bytes -> string, app: Tree, entries: seq<(string, string)>)
    requires HashError(sha, app, entries).Some?
    ensures ReasonOf(HashError(sha, app, entries).value) == if BadFileNamesAVersion(sha, app, entries) then VersionInvalid else InvalidPackage
  {
    var i := HashErrorReason(sha, app, entries);
    if BadFileNamesAVersion(sha, app, entries) {
      var j: nat :| IsFirstBad(sha, app, entries, j) && NamesAVersion(entries[j].0);
      OneFirstBad(sha, app, entries, i, j);
    }
  }

  /** The manifest is accepted, or its error is reported as a problem of the version exactly if it is one. */
  predicate ReasonFits(m: Manifest) {
    match ManifestError(m)
    case None => ManifestPasses(m)
    case Some(error) => !ManifestPasses(m) && ReasonOf(error) == if VersionProblemIn(m) then VersionInvalid else InvalidPackage
  }

  lemma {:induction false} FieldsFit(m: Manifest)
    requires !HasAllFields(m)
    ensures ReasonFits(m)
  {
    FieldsReason("manifest is missing required fields");
  }

  lemma {:induction false} TypeFits(m: Manifest)
    requires HasAllFields(m) && m.packageType != Text("client-update")
    ensures ReasonFits(m)
  {
    TypeReason("unsupported package type");
  }

  lemma {:induction false} BlankFits(m: Manifest)
    requires HasAllFields(m) && m.packageType == Text("client-update") && !HasText(m.version)
    ensures ReasonFits(m)
  {
    BlankExactly(m.version);
    BlankReason("invalid application version");
  }

  lemma {:induction false} ObjectFits(m: Manifest)
    requires HasAllFields(m) && m.packageType == Text("client-update") && HasText(m.version) && !m.hashes.Hashes?
    ensures ReasonFits(m)
  {
    BlankExactly(m.version);
    ObjectReason("manifest.file_hashes must be an object");
  }

  lemma {:induction false} NewerFits(m: Manifest)
    requires HasAllFields(m) && m.packageType == Text("client-update") && HasText(m.version) && m.hashes.Hashes?
    requires !NotNewer(VersionTuple(Shown(m.minimumUpdater)))
    ensures ReasonFits(m)
  {
    BlankExactly(m.version);
    NotNewerExactly(VersionTuple(Shown(m.minimumUpdater)));
    NewerReason("package requires a newer updater");
  }

  lemma {:induction false} ManifestReason(m: Manifest)
    ensures ReasonFits(m)
  {
    if !HasAllFields(m) {
      FieldsFit(m);
    } else if m.packageType != Text("client-update") {
      TypeFits(m);
    } else if !HasText(m.version) {
      BlankFits(m);
    } else if !m.hashes.Hashes? {
      ObjectFits(m);
    } else if !NotNewer(VersionTuple(Shown(m.minimumUpdater))) {
      NewerFits(m);
    } else {
      ManifestPassesExactly(m);
    }
  }

  // ---------------------------------------------------------------- all or nothing

  /** No step after the validation fails. */
  predicate AllWork(w: World, d: Disk, p: Package, e: Ends)
    requires PackagePasses(w.sha, p)
  {
    && e.history.None? && e.stop.None? && CopyWorks(d.app, e.backup) && CopyWorks(p.app, e.replace)
    && (p.updater.Some? ==> CopyWorks(p.updater, e.updater)) && e.dependencies.None? && e.start.None?
    && VersionAgrees(w, p.app, p.manifest.value.version.text)
  }

  /** There is no version file, it names no version, or it names this one. */
  predicate VersionAgrees(w: World, app: Option<Tree>, version: string) {
    w.versionOf(app) in {NoVersion, Version("unknown"), Version(version)}
  }

  lemma {:induction false} ReplacedWorksExactly(w: World, d: Disk, p: Package, e: Ends)
    requires PackageError(w.sha, p).None? && PackagePasses(w.sha, p)
    ensures Replaced(w, d, p, e).1.None? <==> AllWork(w, d, p, e)
  {
  }

  /** An update completes exactly when the package and the installed version file pass and every step works. */
  lemma {:induction false} CompletesExactly(w: World, d: Disk, p: Package, e: Ends)
    ensures Applied(w, d, p, e).1.Completed?
            <==> PackagePasses(w.sha, p) && !w.versionOf(d.app).Unreadable? && AllWork(w, d, p, e)
  {
    PackagePassesExactly(w.sha, p);
    if PackageError(w.sha, p).Some? {
      RolledBackShape(w, d, None, ReasonOf(PackageError(w.sha, p).value), e);
    } else if w.versionOf(d.app).Unreadable? {
      RolledBackShape(w, d, None, ReasonOf(w.versionOf(d.app).error), e);
    } else {
      ReplacedWorksExactly(w, d, p, e);
      var (d1, error) := Replaced(w, d, p, e);
      if error.Some? {
        RolledBackShape(w, d1, Some(OldVersion(w, d)), ReasonOf(error.value), e);
      }
    }
  }

  /**
   * A completed update had a package that passes; it has installed the staged app and updater, kept the old app as
   * backup under the version it had, and stopped and started the client once.
   */
  lemma {:induction false} CompletedInstallsTheStagedTree(w: World, d: Disk, p: Package, e: Ends)
    requires Applied(w, d, p, e).1.Completed?
    ensures var (d', r) := Applied(w, d, p, e);
            && PackagePasses(w.sha, p) && p.manifest.value.version == Text(r.version)
            && d'.app == p.app && VersionAgrees(w, d'.app, r.version)
            && d'.updater == (if p.updater.Some? then p.updater else d.updater)
            && w.versionOf(d.app) in {NoVersion, Version(r.oldVersion)} && (w.versionOf(d.app) == NoVersion ==> r.oldVersion == "unknown")
            && d.app.Some? && d'.backups == d.backups[r.oldVersion := d.app.value]
            && d'.calls == d.calls + [Stop, Start]
  {
    CompletesExactly(w, d, p, e);
    PackagePassesExactly(w.sha, p);
    ReplacedWorksExactly(w, d, p, e);
    ReplacedCompletely(w, d, p, e);
  }

  /** The client is stopped only for a package that passed every check; a rejected package changes nothing. */
  lemma {:induction false} StoppedOnlyAfterValidation(w: World, d: Disk, p: Package, e: Ends)
    ensures d.calls <= Applied(w, d, p, e).0.calls
    ensures Stop in Applied(w, d, p, e).0.calls[|d.calls|..]
            <==> PackagePasses(w.sha, p) && !w.versionOf(d.app).Unreadable? && e.history.None?
    ensures !PackagePasses(w.sha, p) ==>
              PackageError(w.sha, p).Some? && Applied(w, d, p, e) == (d, Failed(ReasonOf(PackageError(w.sha, p).value), false))
  {
    PackagePassesExactly(w.sha, p);
    if PackageError(w.sha, p).None? && !w.versionOf(d.app).Unreadable? {
      ReplacedStops(w, d, p, e);
      var (d1, error) := Replaced(w, d, p, e);
      if error.Some? {
        RolledBackShape(w, d1, Some(OldVersion(w, d)), ReasonOf(error.value), e);
        StopsOnce(d.calls, d1.calls, RolledBack(w, d1, Some(OldVersion(w, d)), ReasonOf(error.value), e).0.calls);
      } else {
        StopsOnce(d.calls, d1.calls, d1.calls);
      }
    }
  }

  /** A stop right behind the first calls is still there when more calls follow. */
  lemma {:induction false} StopsOnce(calls: seq<Call>, more: seq<Call>, all: seq<Call>)
    requires more == calls || calls + [Stop] <= more
    requires more <= all && Stop !in all[|more|..]
    ensures Stop in all[|calls|..] <==> more != calls
  {
    if calls + [Stop] <= more {
      assert all[|calls|] == more[|calls|] == (calls + [Stop])[|calls|] == Stop;
      assert all[|calls|..][0] == Stop;
    }
  }

  /**
   * What makes the rollback restore something else than what was there: the client could not be stopped while an
   * older backup of the same version lies around, or the copy to the backup was torn.
   */
  predicate RestoresAnother(w: World, d: Disk, e: Ends) {
    var version := OldVersion(w, d);
    if e.history.Some? || e.stop.Some? then version in d.backups && Some(d.backups[version]) != d.app
    else !CopyWorks(d.app, e.backup) && CopyTree(d.app, e.backup).Some? && CopyTree(d.app, e.backup) != d.app
  }

  /** A failed update leaves the app as it was, whichever step failed, exactly unless the rollback restores another tree. */
  lemma {:induction false} FailureKeepsTheAppExactly(w: World, d: Disk, p: Package, e: Ends)
    requires Applied(w, d, p, e).1.Failed? && Applied(w, d, p, e).1.reason != Rollback
    ensures Applied(w, d, p, e).0.app == d.app <==>
            PackageError(w.sha, p).Some? || w.versionOf(d.app).Unreadable? || !RestoresAnother(w, d, e)
  {
    if PackageError(w.sha, p).None? && !w.versionOf(d.app).Unreadable? {
      ReplacedShape(w, d, p, e);
      var (d1, error) := Replaced(w, d, p, e);
      ReasonIsNotRollback(error.value);
      RolledBackShape(w, d1, Some(OldVersion(w, d)), ReasonOf(error.value), e);
    }
  }

  /** A backup of the running version is there when the update fails: an old one, or what was just copied. */
  predicate BackupIsThere(w: World, d: Disk, e: Ends) {
    if e.history.Some? || e.stop.Some? then OldVersion(w, d) in d.backups
    else if e.backup.Copied? then d.app.Some? else e.backup.left.Some?
  }

  /** The backup is copied back and, where the updater was given a way to do so, the client is started. */
  predicate RestoringWorks(w: World, e: Ends) { e.restore.Copied? && (w.hasStarter ==> e.restart.None?) }

  /**
   * A failure is reported as rolled back exactly if a backup was there and restoring it worked, and as ROLLBACK exactly
   * if one was there and restoring it did not; a restored client was started last, if the updater can do so.
   */
  lemma {:induction false} FailureIsReportedExactly(w: World, d: Disk, p: Package, e: Ends)
    requires Applied(w, d, p, e).1.Failed?
    ensures var (d', r) := Applied(w, d, p, e);
            var begun := PackagePasses(w.sha, p) && !w.versionOf(d.app).Unreadable?;
            && (r.rolledBack <==> begun && BackupIsThere(w, d, e) && RestoringWorks(w, e))
            && (r.reason == Rollback <==> begun && BackupIsThere(w, d, e) && !RestoringWorks(w, e))
            && (r.rolledBack && w.hasStarter ==> d'.calls != [] && d'.calls[|d'.calls| - 1] == Start)
  {
    PackagePassesExactly(w.sha, p);
    if PackageError(w.sha, p).Some? {
      ReasonIsNotRollback(PackageError(w.sha, p).value);
    } else if w.versionOf(d.app).Unreadable? {
      ReasonIsNotRollback(w.versionOf(d.app).error);
    } else {
      ReplacedShape(w, d, p, e);
      ReasonIsNotRollback(Replaced(w, d, p, e).1.value);
    }
  }

  /** If every step works but the installed version file names another version, that is a problem of the version. */
  lemma {:induction false} OtherVersionIsAVersionProblem(w: World, app: Option<Tree>, version: string)
    ensures VersionError(w, app, version).None? <==> VersionAgrees(w, app, version)
    ensures w.versionOf(app).Version? && !VersionAgrees(w, app, version) ==> ReasonOf(VersionError(w, app, version).value) == VersionInvalid
  {
    if w.versionOf(app).Version? {
      var rest := w.versionOf(app).text + " does not match manifest version " + version;
      SaysVersion("Installed version " + w.versionOf(app).text + " does not match manifest version " + version, "Installed ", " " + rest);
    }
  }

  lemma {:induction false} SaysVersion(text: string, before: string, behind: string)
    requires text == before + "version" + behind
    ensures ReasonOf(ValueError(text)) == VersionInvalid
  {
    var word := "version";
    LowerOfLower(word);
    MapAppend(LowerChar, before + word, behind);
    MapAppend(LowerChar, before, word);
    assert Lower(text) == Lower(before) + word + Lower(behind);
    assert OccursAt(Lower(text), word, |Lower(before)|);
    ContainsMeaning(Lower(text), word);
  }

  lemma {:induction false} ReasonIsNotRollback(e: Raised)
    ensures ReasonOf(e) != Rollback
  {
  }

  /** In particular without an older backup of the version and with backup copies that succeed or leave nothing. */
  lemma {:induction false} FailureKeepsTheApp(w: World, d: Disk, p: Package, e: Ends)
    requires Applied(w, d, p, e).1.Failed? && Applied(w, d, p, e).1.reason != Rollback
    requires OldVersion(w, d) !in d.backups && (e.backup.Torn? ==> e.backup.left.None?)
    ensures Applied(w, d, p, e).0.app == d.app
  {
    FailureKeepsTheAppExactly(w, d, p, e);
  }

  /** An older backup replaces the app when the client cannot be stopped, though nothing was installed yet. */
  lemma {:induction false} StaleBackupReplacesTheApp(w: World, d: Disk, p: Package, e: Ends)
    requires PackageError(w.sha, p).None? && !w.versionOf(d.app).Unreadable?
    requires e.history.None? && e.stop == Some(OtherError) && e.restore.Copied? && !w.hasStarter
    requires OldVersion(w, d) in d.backups && Some(d.backups[OldVersion(w, d)]) != d.app
    ensures Applied(w, d, p, e).1 == Failed(ApplicationStartFailed, true)
    ensures Applied(w, d, p, e).0.app == Some(d.backups[OldVersion(w, d)]) != d.app
  {
  }

  /** A copy to the backup that breaks off is copied back over the untouched app. */
  lemma {:induction false} TornBackupReplacesTheApp(w: World, d: Disk, p: Package, e: Ends, left: Tree)
    requires PackageError(w.sha, p).None? && !w.versionOf(d.app).Unreadable?
    requires e.history.None? && e.stop.None? && e.backup == Torn(Some(left)) && e.restore.Copied? && !w.hasStarter
    requires Some(left) != d.app
    ensures Applied(w, d, p, e).1 == Failed(ApplicationStartFailed, true)
    ensures Applied(w, d, p, e).0.app == Some(left) != d.app
  {
  }

  lemma {:induction false} ContainsBehind(prefix: string, text: string, needle: string)
    requires needle != "" && needle[0] !in prefix
    ensures Contains(prefix + text, needle) <==> Contains(text, needle)
  {
    if prefix == "" {
      assert prefix + text == text;
    } else {
      var whole := prefix + text;
      assert whole[1..] == prefix[1..] + text;
      if |needle| <= |whole| {
        assert whole[..|needle|][0] == prefix[0];
      }
      ContainsBehind(prefix[1..], text, needle);
      if |needle| > |whole| {
        assert |needle| > |text|;
      }
    }
  }

  lemma {:induction false} ReasonBehind(prefix: string, name: string)
    requires Lower(prefix) == prefix && 'v' !in prefix && 'u' !in prefix
    ensures ReasonOf(ValueError(prefix + name)) == VersionInvalid
            <==> Contains(Lower(name), "version") || Contains(Lower(name), "updater")
  {
    MapAppend(LowerChar, prefix, name);
    ContainsBehind(prefix, Lower(name), "version");
    ContainsBehind(prefix, Lower(name), "updater");
  }

  lemma {:induction false} MissingPrefix()
    ensures Lower("manifest file is missing: ") == "manifest file is missing: "
  {
  }

  lemma {:induction false} MismatchPrefix()
    ensures Lower("hash mismatch for ") == "hash mismatch for "
  {
  }

  /** A missing or changed file is reported as a version problem exactly when its name mentions a version or the updater. */
  lemma {:induction false} FileErrorReason(name: string)
    ensures ReasonOf(ValueError("manifest file is missing: " + name)) == VersionInvalid
            <==> Contains(Lower(name), "version") || Contains(Lower(name), "updater")
    ensures ReasonOf(ValueError("hash mismatch for " + name)) == VersionInvalid
            <==> Contains(Lower(name), "version") || Contains(Lower(name), "updater")
  {
    MissingPrefix();
    MismatchPrefix();
    ReasonBehind("manifest file is missing: ", name);
    ReasonBehind("hash mismatch for ", name);
  }

  /** For example a changed version file, although nothing is wrong with any version. */
  lemma {:induction false} ChangedVersionFileIsAVersionProblem()
    ensures ReasonOf(ValueError("hash mismatch for " + "version.json")) == VersionInvalid
  {
    var name := "version.json";
    assert Lower(name) == name && name[..7] == "version";
    FileErrorReason(name);
  }

  // ---------------------------------------------------------------- the installation as the updater changes it

  class Installation {
    var app: Option<Tree>
    var backups: map<string, Tree>
    var updater: Option<Tree>
    var calls: seq<Call>

    function Now(): Disk
      reads this
    {
      Disk(app, backups, updater, calls)
    }

    constructor (d: Disk)
      ensures Now() == d
    {
      app, backups, updater, calls := d.app, d.backups, d.updater, d.calls;
    }

    method Replace(w: World, p: Package, e: Ends, version: string) returns (error: Option<Raised>)
      requires PackageError(w.sha, p).None? && version == OldVersion(w, Now())
      modifies this
      ensures (Now(), error) == Replaced(w, old(Now()), p, e)
    {
      if e.history.Some? {
        return e.history;
      }
      calls := calls + [Stop];
      if e.stop.Some? {
        return e.stop;
      }
      var backup := CopyTree(app, e.backup);
      backups := if backup.Some? then backups[version := backup.value] else backups - {version};
      if !CopyWorks(app, e.backup) {
        return Some(OtherError);
      }
      app := CopyTree(p.app, e.replace);
      if !CopyWorks(p.app, e.replace) {
        return Some(OtherError);
      }
      error := Finish(w, p, e);
    }

    method Finish(w: World, p: Package, e: Ends) returns (error: Option<Raised>)
      requires PackageError(w.sha, p).None?
      modifies this
      ensures (Now(), error) == Finished(w, old(Now()), p, e)
    {
      if p.updater.Some? {
        updater := CopyTree(p.updater, e.updater);
        if !CopyWorks(p.updater, e.updater) {
          return Some(OtherError);
        }
      }
      if e.dependencies.Some? {
        return e.dependencies;
      }
      calls := calls + [Start];
      if e.start.Some? {
        return e.start;
      }
      error := VersionError(w, app, p.manifest.value.version.text);
    }

    method RollBack(w: World, version: Option<string>, reason: Reason, e: Ends) returns (r: Outcome)
      modifies this
      ensures (Now(), r) == RolledBack(w, old(Now()), version, reason, e)
    {
      if version.None? || version.value !in backups {
        return Failed(reason, false);
      }
      var backup := Some(backups[version.value]);
      app := CopyTree(backup, e.restore);
      if !CopyWorks(backup, e.restore) {
        return Failed(Rollback, false);
      }
      if w.hasStarter {
        calls := calls + [Start];
        if e.restart.Some? {
          return Failed(Rollback, false);
        }
      }
      r := Failed(reason, true);
    }

    method ApplyUpdate(w: World, p: Package, e: Ends) returns (r: Outcome)
      modifies this
      ensures (Now(), r) == Applied(w, old(Now()), p, e)
    {
      var invalid := Check(w.sha, p);
      if invalid.Some? {
        r := RollBack(w, None, ReasonOf(invalid.value), e);
        return;
      }
      var found := w.versionOf(app);
      if found.Unreadable? {
        r := RollBack(w, None, ReasonOf(found.error), e);
        return;
      }
      var version := if found.Version? then found.text else "unknown";
      var error := Replace(w, p, e, version);
      if error.Some? {
        r := RollBack(w, Some(version), ReasonOf(error.value), e);
      } else {
        r := Completed(p.manifest.value.version.text, version);
      }
    }
  }

  method Check(sha: Bytes -> string, p: Package) returns (error: Option<Raised>)
    ensures error == PackageError(sha, p)
  {
    if !p.isZip {
      return Some(ValueError("update package must be a zip file"));
    }
    if p.unpacked.Some? {
      return p.unpacked;
    }
    if p.manifest.Err? {
      return Some(p.manifest.error);
    }
    error := ManifestError(p.manifest.value);
    if error.Some? {
      return;
    }
    if p.app.None? {
      return Some(ValueError("package app directory is missing"));
    }
    error := VerifyHashes(sha, p.app.value, p.manifest.value.hashes.entries);
  }
}
