/** The TLS ClientHello parser, its JA3 string, and the messages it reads back. */
module TlsHello {
  import opened Prelude
  import opened Text
  import opened Wire

  function GreaseValue(i: nat): nat { 0x0A0A + 0x1010 * i }

  /** The sixteen values RFC 8701 section 2 reserves. */
  predicate IsGrease(v: Word) { exists i :: 0 <= i < 16 && v == GreaseValue(i) }

  /** The test that builds `_GREASE`: both bytes equal and ending in the nibble A. */
  predicate LooksLikeGrease(v: Word) {
    (v / 256) % 16 == 10 && v % 16 == 10 && v / 256 == v % 256
  }

  lemma {:induction false} GreaseIsTheSixteenValues(v: Word)
    ensures LooksLikeGrease(v) <==> IsGrease(v)
  {
    if LooksLikeGrease(v) {
      var h := v / 256;
      assert v == 257 * h && h == 16 * (h / 16) + 10;
      assert v == GreaseValue(h / 16);
    }
    if i :| 0 <= i < 16 && v == GreaseValue(i) {
      var h := 16 * i + 10;
      assert v == h * 256 + h && h % 16 == 10 && h * 257 % 16 == h % 16;
    }
  }

  predicate Plain(v: Word) { !IsGrease(v) }

  /** What the extensions of a hello tell: their types, groups, point formats and server name. */
  datatype Found = Found(types: seq<Word>, groups: seq<Word>, formats: Bytes, sni: Option<string>)

  datatype Hello = Hello(version: Word, ciphers: seq<Word>, found: Found)

  /** The outcome: no ClientHello (None in the source), a `struct.error`, or a parsed hello. */
  datatype Outcome = NotHello | Raises | Parsed(hello: Hello)

  // ---------------------------------------------------------------- the parser as a function

  /** `n` successive 16-bit numbers. */
  function WordsAt(b: Bytes, at: nat, n: nat): (ws: seq<Word>)
    requires at + 2 * n <= |b|
    ensures |ws| == n
  {
    if n == 0 then [] else WordsAt(b, at, n - 1) + [Get16(b, at + 2 * (n - 1))]
  }

  function AsciiChar(b: Byte): char { if b < 128 then b as char else '\U{FFFD}' }

  function DecodeAscii(b: Bytes): string { Map(AsciiChar, b) }

  function ServerNameIn(data: Bytes): Option<string> {
    if |data| < 5 || data[2] != 0 || |data| < 5 + Get16(data, 3) then None
    else Some(Trim(IsSpace, DecodeAscii(data[5..5 + Get16(data, 3)])))
  }

  /** As many groups as the list announces and the data holds. */
  function GroupsIn(data: Bytes): seq<Word> {
    if |data| < 2 then []
    else Filter(Plain, WordsAt(data, 2, Min((Get16(data, 0) + 1) / 2, (|data| - 2) / 2)))
  }

  function FormatsIn(data: Bytes): Bytes {
    if |data| < 1 then [] else data[1..1 + Min(data[0], |data| - 1)]
  }

  /** One extension that is no GREASE. */
  function Noted(f: Found, kind: Word, data: Bytes): Found {
    Found(f.types + [kind],
          if kind == 10 then f.groups + GroupsIn(data) else f.groups,
          if kind == 11 then f.formats + FormatsIn(data) else f.formats,
          if kind == 0 && ServerNameIn(data).Some? then ServerNameIn(data) else f.sni)
  }

  /** Type and contents of one extension on the wire. */
  datatype Raw = Raw(kind: Word, data: Bytes)

  /** One extension added to what was found: GREASE adds nothing. */
  function NotedRaw(f: Found, r: Raw): Found { if IsGrease(r.kind) then f else Noted(f, r.kind, r.data) }

  /** The extension loop from `pos` on; the block ends at `end`, the buffer maybe before that. */
  function Scan<F>(note: (F, Raw) -> F, p: Bytes, pos: nat, end: nat, f: F): F
    decreases |p| - pos
  {
    if pos + 4 <= end && pos + 4 <= |p| then
      var next := pos + 4 + Get16(p, pos + 2);
      if next > |p| then f else Scan(note, p, next, end, note(f, Raw(Get16(p, pos), p[pos + 4..next])))
    else f
  }

  const NOTHING := Found([], [], [], None)

  /** Everything after the compression methods. */
  function Extensions(p: Bytes, pos: nat): Found {
    if |p| >= pos + 2 then Scan(NotedRaw, p, pos + 2, pos + 2 + Get16(p, pos), NOTHING) else NOTHING
  }

  /** From the length of the compression methods on. */
  function AfterCiphers(p: Bytes, version: Word, ciphers: seq<Word>, at: nat): Outcome {
    if |p| < at + 1 then NotHello else Parsed(Hello(version, ciphers, Extensions(p, at + 1 + p[at])))
  }

  /** From the cipher suites on, of which there are `length` bytes; the last of an odd number is read with the next byte. */
  function AfterLength(p: Bytes, version: Word, at: nat, length: nat): Outcome {
    if |p| < at + 2 * ((length + 1) / 2) then Raises
    else AfterCiphers(p, version, Filter(Plain, WordsAt(p, at, (length + 1) / 2)), at + length)
  }

  /** From the length of the cipher suites on. */
  function AfterSession(p: Bytes, version: Word, pos: nat): Outcome {
    if |p| < pos + 2 || |p| < pos + 2 + Get16(p, pos) then NotHello
    else AfterLength(p, version, pos + 2, Get16(p, pos))
  }

  function Parse(p: Bytes): Outcome {
    if |p| < 6 || p[0] != 0x16 || |p| < 5 + Get16(p, 3) || p[5] != 1 || |p| < 44 then NotHello
    else AfterSession(p, Get16(p, 9), p[43] as int + 44)
  }

  // ---------------------------------------------------------------- the parser as it runs

  method ReadCiphers(p: Bytes, pos: nat, length: nat) returns (ciphers: seq<Word>, raised: bool)
    requires pos + length <= |p|
    ensures raised <==> |p| < pos + 2 * ((length + 1) / 2)
    ensures !raised ==> ciphers == Filter(Plain, WordsAt(p, pos, (length + 1) / 2))
  {
    ciphers := [];
    var i, k := 0, 0;
    while i < length
      invariant i == 2 * k && i <= length + 1 && pos + i <= |p|
      invariant ciphers == Filter(Plain, WordsAt(p, pos, k))
      decreases length - i
    {
      if pos + i + 2 > |p| {
        assert i + 1 == length;
        return ciphers, true;
      }
      ciphers := KeepPlain(p, pos, k, ciphers);
      i, k := i + 2, k + 1;
    }
    assert k == (length + 1) / 2;
    raised := false;
  }

  method KeepPlain(p: Bytes, pos: nat, k: nat, kept: seq<Word>) returns (r: seq<Word>)
    requires pos + 2 * k + 2 <= |p| && kept == Filter(Plain, WordsAt(p, pos, k))
    ensures r == Filter(Plain, WordsAt(p, pos, k + 1))
  {
    var word := Get16(p, pos + 2 * k);
    FilterSnoc(Plain, WordsAt(p, pos, k), word);
    assert WordsAt(p, pos, k + 1) == WordsAt(p, pos, k) + [word];
    r := if IsGrease(word) then kept else kept + [word];
  }

  method ReadGroups(data: Bytes) returns (groups: seq<Word>)
    requires |data| >= 2
    ensures groups == GroupsIn(data)
  {
    groups := [];
    var length := Get16(data, 0);
    var i, k := 0, 0;
    while i < length && 2 + i + 2 <= |data|
      invariant i == 2 * k && i <= length + 1 && 2 + i <= |data|
      invariant groups == Filter(Plain, WordsAt(data, 2, k))
      decreases length - i
    {
      groups := KeepPlain(data, 2, k, groups);
      i, k := i + 2, k + 1;
    }
    GroupCount(length, |data|, k);
  }

  lemma {:induction false} GroupCount(length: nat, size: nat, k: nat)
    requires size >= 2 && 2 * k <= length + 1 && 2 + 2 * k <= size && (2 * k >= length || 2 * k + 4 > size)
    ensures k == Min((length + 1) / 2, (size - 2) / 2)
  {
  }

  method ReadFormats(data: Bytes) returns (formats: Bytes)
    requires |data| >= 1
    ensures formats == FormatsIn(data)
  {
    formats := [];
    for i := 0 to Min(data[0], |data| - 1)
      invariant formats == data[1..1 + i]
    {
      formats := formats + [data[1 + i]];
    }
  }

  method ScanExtensions(p: Bytes, start: nat, end: nat) returns (f: Found)
    ensures f == Scan(NotedRaw, p, start, end, NOTHING)
  {
    f := NOTHING;
    var pos := start;
    while pos + 4 <= end && pos + 4 <= |p|
      invariant Scan(NotedRaw, p, start, end, NOTHING) == Scan(NotedRaw, p, pos, end, f)
      decreases |p| - pos
    {
      var kind, at := Get16(p, pos), pos + 4;
      pos := at + Get16(p, pos + 2);
      if pos > |p| {
        return;
      }
      if !IsGrease(kind) {
        f := NoteExtension(f, kind, p[at..pos]);
      }
    }
  }

  method NoteExtension(f: Found, kind: Word, data: Bytes) returns (f': Found)
    ensures f' == Noted(f, kind, data)
  {
    f' := f.(types := f.types + [kind]);
    if kind == 0 {
      if |data| >= 5 && data[2] == 0 {
        var length: nat := Get16(data, 3);
        if |data| >= 5 + length {
          f' := f'.(sni := Some(Trim(IsSpace, DecodeAscii(data[5..5 + length]))));
        }
      }
    } else if kind == 10 {
      if |data| >= 2 {
        var groups := ReadGroups(data);
        f' := f'.(groups := f.groups + groups);
      } else {
        assert f.groups + GroupsIn(data) == f.groups;
      }
    } else if kind == 11 {
      if |data| >= 1 {
        var formats := ReadFormats(data);
        f' := f'.(formats := f.formats + formats);
      } else {
        assert f.formats + FormatsIn(data) == f.formats;
      }
    }
  }

  method ParseSuites(p: Bytes, version: Word, start: nat) returns (r: Outcome)
    ensures r == AfterSession(p, version, start)
  {
    if |p| < start + 2 {
      return NotHello;
    }
    var length: nat := Get16(p, start);
    if |p| < start + 2 + length {
      return NotHello;
    }
    r := ParseCiphers(p, version, start + 2, length);
  }

  method ParseCiphers(p: Bytes, version: Word, at: nat, length: nat) returns (r: Outcome)
    requires at + length <= |p|
    ensures r == AfterLength(p, version, at, length)
  {
    var ciphers, raised := ReadCiphers(p, at, length);
    if raised {
      return Raises;
    }
    r := ParseMethods(p, version, ciphers, at + length);
  }

  method ParseMethods(p: Bytes, version: Word, ciphers: seq<Word>, at: nat) returns (r: Outcome)
    ensures r == AfterCiphers(p, version, ciphers, at)
  {
    if |p| < at + 1 {
      return NotHello;
    }
    var found := ReadExtensions(p, at + 1 + p[at]);
    r := Parsed(Hello(version, ciphers, found));
  }

  method ReadExtensions(p: Bytes, pos: nat) returns (found: Found)
    ensures found == Extensions(p, pos)
  {
    if |p| < pos + 2 {
      return NOTHING;
    }
    var length: nat := Get16(p, pos);
    found := ScanExtensions(p, pos + 2, pos + 2 + length);
  }

  method ParseTlsClientHello(p: Bytes) returns (r: Outcome)
    ensures r == Parse(p)
  {
    if |p| < 6 || p[0] != 0x16 || |p| < 5 + Get16(p, 3) || p[5] != 1 || |p| < 44 {
      return NotHello;
    }
    r := ParseSuites(p, Get16(p, 9), p[43] as int + 44);
  }

  /** A list of groups or formats that breaks off, or announces an odd length, is read as far as its items are there. */
  lemma {:induction false} BrokenListsTell(data: Bytes) returns (k: nat, n: nat)
    requires |data| >= 2
    ensures 2 + 2 * k <= |data| && GroupsIn(data) == Filter(Plain, WordsAt(data, 2, k))
    ensures (k > 0 ==> 2 * (k - 1) < Get16(data, 0)) && (2 * k >= Get16(data, 0) || 2 * k + 4 > |data|)
    ensures 1 + n <= |data| && FormatsIn(data) == data[1..1 + n]
    ensures n <= data[0] && (n == data[0] || 1 + n == |data|)
  {
    k, n := Min((Get16(data, 0) + 1) / 2, (|data| - 2) / 2), Min(data[0], |data| - 1);
  }

  // ---------------------------------------------------------------- hellos as RFC 8446 section 4.1.2 lays them out

  datatype Extension =
    | ServerName(name: Bytes)
    | SupportedGroups(groups: seq<Word>)
    | PointFormats(formats: Bytes)
    | Other(kind: Word, data: Bytes)

  /** `extensions` is None for a hello that ends with its compression methods. */
  datatype Sent = Sent(
    recordVersion: Word, version: Word, random: Bytes, session: Bytes,
    ciphers: seq<Word>, compression: Bytes, extensions: Option<seq<Extension>>)

  function PutWords(ws: seq<Word>): (b: Bytes)
    ensures |b| == 2 * |ws|
  {
    if ws == [] then [] else PutWords(ws[..|ws| - 1]) + Put16(ws[|ws| - 1])
  }

  function KindOf(e: Extension): Word {
    match e case ServerName(_) => 0 case SupportedGroups(_) => 10 case PointFormats(_) => 11 case Other(kind, _) => kind
  }

  predicate ValidExtension(e: Extension) {
    match e
    case ServerName(name) => |name| + 5 < 0x1_0000
    case SupportedGroups(groups) => 2 * |groups| + 2 < 0x1_0000
    case PointFormats(formats) => |formats| < 256
    case Other(kind, data) => kind != 0 && kind != 10 && kind != 11 && |data| < 0x1_0000
  }

  function DataOf(e: Extension): (b: Bytes)
    requires ValidExtension(e)
    ensures |b| < 0x1_0000
  {
    match e
    case ServerName(name) => Put16(|name| + 3) + ([0] + (Put16(|name|) + name))
    case SupportedGroups(groups) => Put16(2 * |groups|) + PutWords(groups)
    case PointFormats(formats) => [|formats|] + formats
    case Other(_, data) => data
  }

  function PutRaw(r: Raw): (b: Bytes)
    requires |r.data| < 0x1_0000
    ensures |b| == 4 + |r.data|
  {
    Put16(r.kind) + (Put16(|r.data|) + r.data)
  }

  function PutRaws(raws: seq<Raw>): Bytes
    requires forall r :: r in raws ==> |r.data| < 0x1_0000
  {
    if raws == [] then [] else PutRaw(raws[0]) + PutRaws(raws[1..])
  }

  predicate ValidExtensions(es: seq<Extension>) {
    es == [] || (ValidExtension(es[0]) && ValidExtensions(es[1..]))
  }

  function RawsOf(es: seq<Extension>): (raws: seq<Raw>)
    requires ValidExtensions(es)
    ensures forall r :: r in raws ==> |r.data| < 0x1_0000
  {
    if es == [] then [] else [Raw(KindOf(es[0]), DataOf(es[0]))] + RawsOf(es[1..])
  }

  function PutExtensions(es: seq<Extension>): Bytes
    requires ValidExtensions(es)
  {
    PutRaws(RawsOf(es))
  }

  predicate ValidSent(s: Sent) {
    && |s.random| == 32 && |s.session| < 256 && |s.compression| < 256 && 2 * |s.ciphers| < 0x1_0000
    && (s.extensions.Some? ==> ValidExtensions(s.extensions.value) && |PutExtensions(s.extensions.value)| < 0x1_0000)
    && |PutHandshake(BodyOf(s))| < 0x1_0000
  }

  function TailOf(s: Sent): Bytes
    requires s.extensions.Some? ==> ValidExtensions(s.extensions.value) && |PutExtensions(s.extensions.value)| < 0x1_0000
  {
    if s.extensions.None? then []
    else Put16(|PutExtensions(s.extensions.value)|) + PutExtensions(s.extensions.value)
  }

  /** From the cipher suites on. */
  function PutSuites(ciphers: seq<Word>, compression: Bytes, tail: Bytes): (b: Bytes)
    requires |compression| < 256 && 2 * |ciphers| < 0x1_0000
    ensures |b| == 3 + 2 * |ciphers| + |compression| + |tail|
  {
    Put16(2 * |ciphers|) + (PutWords(ciphers) + ([|compression|] + (compression + tail)))
  }

  function PutBody(version: Word, random: Bytes, session: Bytes, suites: Bytes): (b: Bytes)
    requires |random| == 32 && |session| < 256
    ensures |b| == 35 + |session| + |suites|
  {
    Put16(version) + (random + ([|session|] + (session + suites)))
  }

  function PutHandshake(body: Bytes): (b: Bytes)
    ensures |b| == 4 + |body|
  {
    [1] + (ToBytes(|body|, 3) + body)
  }

  function PutRecord(recordVersion: Word, handshake: Bytes): (b: Bytes)
    requires |handshake| < 0x1_0000
    ensures |b| == 5 + |handshake|
  {
    [0x16] + (Put16(recordVersion) + (Put16(|handshake|) + handshake))
  }

  function BodyOf(s: Sent): Bytes
    requires |s.random| == 32 && |s.session| < 256 && |s.compression| < 256 && 2 * |s.ciphers| < 0x1_0000
    requires s.extensions.Some? ==> ValidExtensions(s.extensions.value) && |PutExtensions(s.extensions.value)| < 0x1_0000
  {
    PutBody(s.version, s.random, s.session, PutSuites(s.ciphers, s.compression, TailOf(s)))
  }

  /** The TLS record that carries the hello. */
  function PutHello(s: Sent): Bytes
    requires ValidSent(s)
  {
    PutRecord(s.recordVersion, PutHandshake(BodyOf(s)))
  }

  // ---------------------------------------------------------------- what is to be read back

  function NameSent(name: Bytes): string { Trim(IsSpace, DecodeAscii(name)) }

  /** What one extension tells. */
  function Told(e: Extension): Found {
    match e
    case ServerName(name) => Found([0], [], [], Some(NameSent(name)))
    case SupportedGroups(groups) => Found([10], Filter(Plain, groups), [], None)
    case PointFormats(formats) => Found([11], [], formats, None)
    case Other(kind, _) => if IsGrease(kind) then NOTHING else Found([kind], [], [], None)
  }

  /** Findings in front of those of later extensions: lists are appended, the last server name counts. */
  function Joined(f: Found, g: Found): Found {
    Found(f.types + g.types, f.groups + g.groups, f.formats + g.formats, if g.sni.Some? then g.sni else f.sni)
  }

  function FoundIn(es: seq<Extension>): Found {
    if es == [] then NOTHING else Joined(Told(es[0]), FoundIn(es[1..]))
  }

  // ---------------------------------------------------------------- reading back

  lemma {:induction false} WordsReadBack(b: Bytes, at: nat, ws: seq<Word>)
    requires HoldsAt(b, at, PutWords(ws))
    ensures WordsAt(b, at, |ws|) == ws
    decreases |ws|
  {
    if ws != [] {
      var n := |ws| - 1;
      var front, last := ws[..n], ws[n];
      HoldsThen(b, at, PutWords(front), Put16(last), at + 2 * n);
      WordsReadBack(b, at, front);
      Get16OfPut16(b, at + 2 * n, last);
      WordsSnoc(b, at, front, last);
      assert ws == front + [last];
    }
  }

  lemma {:induction false} WordsSnoc(b: Bytes, at: nat, front: seq<Word>, last: Word)
    requires at + 2 * |front| + 2 <= |b| && WordsAt(b, at, |front|) == front && Get16(b, at + 2 * |front|) == last
    ensures WordsAt(b, at, |front| + 1) == front + [last]
  {
  }

  lemma {:induction false} GroupsThere(data: Bytes, groups: seq<Word>)
    requires |data| == 2 + 2 * |groups| && Get16(data, 0) == 2 * |groups| && WordsAt(data, 2, |groups|) == groups
    ensures GroupsIn(data) == Filter(Plain, groups)
  {
    GroupCount(2 * |groups|, |data|, |groups|);
  }

  lemma {:induction false} HoldsItself(b: Bytes)
    ensures HoldsAt(b, 0, b)
  {
    assert b[0..|b|] == b;
  }

  lemma {:induction false} NameReadsBack(name: Bytes)
    requires |name| + 5 < 0x1_0000
    ensures ServerNameIn(DataOf(ServerName(name))) == Some(NameSent(name))
  {
    var data := Put16(|name| + 3) + ([0] + (Put16(|name|) + name));
    HoldsItself(data);
    HoldsParts(data, 0, Put16(|name| + 3), [0] + (Put16(|name|) + name));
    HoldsParts(data, 2, [0], Put16(|name|) + name);
    HoldsParts(data, 3, Put16(|name|), name);
    Get16OfPut16(data, 3, |name|);
    assert data[2..3][0] == data[2];
    assert data[5..5 + |name|] == name;
  }

  lemma {:induction false} GroupsReadBack(groups: seq<Word>)
    requires 2 * |groups| + 2 < 0x1_0000
    ensures GroupsIn(DataOf(SupportedGroups(groups))) == Filter(Plain, groups)
  {
    var data := Put16(2 * |groups|) + PutWords(groups);
    HoldsItself(data);
    HoldsParts(data, 0, Put16(2 * |groups|), PutWords(groups));
    Get16OfPut16(data, 0, 2 * |groups|);
    WordsReadBack(data, 2, groups);
    GroupsThere(data, groups);
  }

  lemma {:induction false} FormatsReadBack(formats: Bytes)
    requires |formats| < 256
    ensures FormatsIn(DataOf(PointFormats(formats))) == formats
  {
    var data := [|formats|] + formats;
    assert data[1..1 + |formats|] == formats;
  }

  /** What the parser notes of one extension is what was put into it. */
  lemma {:induction false} NotedAsSent(f: Found, e: Extension)
    requires ValidExtension(e)
    ensures Joined(f, Told(e)) == if IsGrease(KindOf(e)) then f else Noted(f, KindOf(e), DataOf(e))
  {
    assert f.types + [] == f.types && f.groups + [] == f.groups && f.formats + [] == f.formats;
    match e
    case ServerName(name) => NameReadsBack(name);
    case SupportedGroups(groups) => GroupsReadBack(groups);
    case PointFormats(formats) => FormatsReadBack(formats);
    case Other(_, _) =>
  }

  lemma {:induction false} JoinedAssociates(f: Found, g: Found, h: Found)
    ensures Joined(f, Joined(g, h)) == Joined(Joined(f, g), h)
  {
    assert f.types + (g.types + h.types) == (f.types + g.types) + h.types;
    assert f.groups + (g.groups + h.groups) == (f.groups + g.groups) + h.groups;
    assert f.formats + (g.formats + h.formats) == (f.formats + g.formats) + h.formats;
  }

  lemma {:induction false} RawReadsBack(p: Bytes, pos: nat, r: Raw)
    requires |r.data| < 0x1_0000 && HoldsAt(p, pos, PutRaw(r))
    ensures pos + 4 + |r.data| <= |p|
    ensures Get16(p, pos) == r.kind && Get16(p, pos + 2) == |r.data|
    ensures p[pos + 4..pos + 4 + |r.data|] == r.data
  {
    HoldsParts(p, pos, Put16(r.kind), Put16(|r.data|) + r.data);
    HoldsParts(p, pos + 2, Put16(|r.data|), r.data);
    Get16OfPut16(p, pos, r.kind);
    Get16OfPut16(p, pos + 2, |r.data|);
  }

  function NotedAll<F>(note: (F, Raw) -> F, f: F, raws: seq<Raw>): F
    decreases |raws|
  {
    if raws == [] then f else NotedAll(note, note(f, raws[0]), raws[1..])
  }

  lemma {:induction false} ScanStep<F>(note: (F, Raw) -> F, p: Bytes, pos: nat, end: nat, f: F, r: Raw)
    requires pos + 4 + |r.data| <= |p| && pos + 4 + |r.data| <= end
    requires |r.data| < 0x1_0000 && Get16(p, pos) == r.kind && Get16(p, pos + 2) == |r.data|
    requires p[pos + 4..pos + 4 + |r.data|] == r.data
    ensures Scan(note, p, pos, end, f) == Scan(note, p, pos + 4 + |r.data|, end, note(f, r))
  {
  }

  lemma {:induction false} ScanCons<F>(note: (F, Raw) -> F, p: Bytes, pos: nat, end: nat, f: F, r: Raw, rest: Bytes)
    requires |r.data| < 0x1_0000 && HoldsAt(p, pos, PutRaw(r) + rest) && end == pos + |PutRaw(r) + rest|
    ensures end == pos + 4 + |r.data| + |rest| && HoldsAt(p, pos + 4 + |r.data|, rest)
    ensures Scan(note, p, pos, end, f) == Scan(note, p, pos + 4 + |r.data|, end, note(f, r))
  {
    HoldsParts(p, pos, PutRaw(r), rest);
    RawReadsBack(p, pos, r);
    ScanStep(note, p, pos, end, f, r);
  }

  /** The loop over a written block notes its extensions one by one, whatever follows the block. */
  lemma {:induction false} ScanReadsBack<F>(note: (F, Raw) -> F, p: Bytes, pos: nat, end: nat, f: F, raws: seq<Raw>)
    requires forall r :: r in raws ==> |r.data| < 0x1_0000
    requires HoldsAt(p, pos, PutRaws(raws)) && end == pos + |PutRaws(raws)|
    ensures Scan(note, p, pos, end, f) == NotedAll(note, f, raws)
    decreases |raws|
  {
    if raws != [] {
      var r := raws[0];
      ScanCons(note, p, pos, end, f, r, PutRaws(raws[1..]));
      ScanReadsBack(note, p, pos + 4 + |r.data|, end, note(f, r), raws[1..]);
    }
  }

  lemma {:induction false} NotedAllAsSent(f: Found, es: seq<Extension>)
    requires ValidExtensions(es)
    ensures NotedAll(NotedRaw, f, RawsOf(es)) == Joined(f, FoundIn(es))
    decreases |es|
  {
    if es == [] {
      assert f.types + [] == f.types && f.groups + [] == f.groups && f.formats + [] == f.formats;
    } else {
      NotedAsSent(f, es[0]);
      assert RawsOf(es)[1..] == RawsOf(es[1..]);
      NotedAllAsSent(Joined(f, Told(es[0])), es[1..]);
      JoinedAssociates(f, Told(es[0]), FoundIn(es[1..]));
    }
  }

  lemma {:induction false} BlockReadsBack(p: Bytes, pos: nat, block: Bytes)
    requires |block| < 0x1_0000 && HoldsAt(p, pos, Put16(|block|) + block)
    ensures |p| >= pos + 2 && Get16(p, pos) == |block| && HoldsAt(p, pos + 2, block)
  {
    HoldsParts(p, pos, Put16(|block|), block);
    Get16OfPut16(p, pos, |block|);
  }

  lemma {:induction false} RawsReadBack(p: Bytes, pos: nat, raws: seq<Raw>)
    requires forall r :: r in raws ==> |r.data| < 0x1_0000
    requires |p| >= pos + 2 && Get16(p, pos) == |PutRaws(raws)| && HoldsAt(p, pos + 2, PutRaws(raws))
    ensures Extensions(p, pos) == NotedAll(NotedRaw, NOTHING, raws)
  {
    var end: nat := pos + 2 + Get16(p, pos);
    ScanReadsBack(NotedRaw, p, pos + 2, end, NOTHING, raws);
    ExtensionsAre(p, pos, end, NotedAll(NotedRaw, NOTHING, raws));
  }

  lemma {:induction false} ExtensionsAre(p: Bytes, pos: nat, end: nat, f: Found)
    requires |p| >= pos + 2 && end == pos + 2 + Get16(p, pos) && Scan(NotedRaw, p, pos + 2, end, NOTHING) == f
    ensures Extensions(p, pos) == f
  {
  }

  lemma {:induction false} TailReadsBack(p: Bytes, pos: nat, es: seq<Extension>)
    requires ValidExtensions(es) && |PutExtensions(es)| < 0x1_0000
    requires HoldsAt(p, pos, Put16(|PutExtensions(es)|) + PutExtensions(es))
    ensures Extensions(p, pos) == FoundIn(es)
  {
    BlockReadsBack(p, pos, PutExtensions(es));
    RawsReadBack(p, pos, RawsOf(es));
    NotedAllAsSent(NOTHING, es);
    NothingJoined(FoundIn(es));
  }

  lemma {:induction false} NothingJoined(f: Found)
    ensures Joined(NOTHING, f) == f
  {
    assert [] + f.types == f.types && [] + f.groups == f.groups && [] + f.formats == f.formats;
  }

  lemma {:induction false} ByteAt(p: Bytes, at: nat, b: Byte)
    requires HoldsAt(p, at, [b])
    ensures p[at] == b
  {
    assert p[at..at + 1][0] == p[at];
  }

  lemma {:induction false} SuitesFields(p: Bytes, pos: nat, ciphers: seq<Word>, compression: Bytes, tail: Bytes, at: nat, end: nat)
    requires |compression| < 256 && 2 * |ciphers| < 0x1_0000
    requires HoldsAt(p, pos, PutSuites(ciphers, compression, tail))
    requires at == pos + 2 + 2 * |ciphers| && end == at + 1 + |compression|
    ensures HoldsAt(p, end, tail)
    ensures Get16(p, pos) == 2 * |ciphers| && HoldsAt(p, pos + 2, PutWords(ciphers))
    ensures |p| > at && p[at] == |compression|
  {
    var after := [|compression|] + (compression + tail);
    HoldsThen(p, pos, Put16(2 * |ciphers|), PutWords(ciphers) + after, pos + 2);
    HoldsThen(p, pos + 2, PutWords(ciphers), after, at);
    HoldsThen(p, at, [|compression|], compression + tail, at + 1);
    HoldsThen(p, at + 1, compression, tail, end);
    Get16OfPut16(p, pos, 2 * |ciphers|);
    ByteAt(p, at, |compression|);
  }

  lemma {:induction false} SuitesReadBack(p: Bytes, version: Word, pos: nat, ciphers: seq<Word>, end: nat)
    requires pos + 2 <= |p| && Get16(p, pos) == 2 * |ciphers|
    requires |p| > pos + 2 + Get16(p, pos) && HoldsAt(p, pos + 2, PutWords(ciphers))
    requires end == pos + 2 + Get16(p, pos) + 1 + p[pos + 2 + Get16(p, pos)]
    ensures AfterSession(p, version, pos) == Parsed(Hello(version, Filter(Plain, ciphers), Extensions(p, end)))
  {
    var at, length: nat := pos + 2, Get16(p, pos);
    WordsReadBack(p, at, ciphers);
    CiphersReadBack(p, version, at, length, ciphers);
    MethodsReadBack(p, version, Filter(Plain, ciphers), at + length, end);
  }

  lemma {:induction false} CiphersReadBack(p: Bytes, version: Word, at: nat, length: nat, ciphers: seq<Word>)
    requires length == 2 * |ciphers| && at + length <= |p| && WordsAt(p, at, |ciphers|) == ciphers
    ensures AfterLength(p, version, at, length) == AfterCiphers(p, version, Filter(Plain, ciphers), at + length)
  {
  }

  lemma {:induction false} MethodsReadBack(p: Bytes, version: Word, ciphers: seq<Word>, at: nat, end: nat)
    requires |p| > at && end == at + 1 + p[at]
    ensures AfterCiphers(p, version, ciphers, at) == Parsed(Hello(version, ciphers, Extensions(p, end)))
  {
  }

  lemma {:induction false} BodyReadsBack(p: Bytes, version: Word, random: Bytes, session: Bytes, suites: Bytes)
    requires |random| == 32 && |session| < 256
    requires HoldsAt(p, 9, PutBody(version, random, session, suites))
    ensures Get16(p, 9) == version && p[43] == |session| && HoldsAt(p, 44 + |session|, suites)
  {
    HoldsParts(p, 9, Put16(version), random + ([|session|] + (session + suites)));
    HoldsParts(p, 11, random, [|session|] + (session + suites));
    HoldsParts(p, 43, [|session|], session + suites);
    HoldsParts(p, 44, session, suites);
    Get16OfPut16(p, 9, version);
    ByteAt(p, 43, |session|);
  }

  lemma {:induction false} RecordReadsBack(p: Bytes, recordVersion: Word, body: Bytes)
    requires 4 + |body| < 0x1_0000 && HoldsAt(p, 0, PutRecord(recordVersion, PutHandshake(body)))
    ensures |p| >= 9 + |body| && p[0] == 0x16 && Get16(p, 3) == 4 + |body| && p[5] == 1 && HoldsAt(p, 9, body)
  {
    var handshake := PutHandshake(body);
    HoldsParts(p, 0, [0x16], Put16(recordVersion) + (Put16(|handshake|) + handshake));
    HoldsParts(p, 1, Put16(recordVersion), Put16(|handshake|) + handshake);
    HoldsParts(p, 3, Put16(|handshake|), handshake);
    HoldsParts(p, 5, [1], ToBytes(|body|, 3) + body);
    HoldsParts(p, 6, ToBytes(|body|, 3), body);
    Get16OfPut16(p, 3, |handshake|);
    ByteAt(p, 0, 0x16);
    ByteAt(p, 5, 1);
  }

  lemma {:induction false} HelloFields(p: Bytes, recordVersion: Word, version: Word, random: Bytes, session: Bytes,
                    ciphers: seq<Word>, compression: Bytes, tail: Bytes, end: nat)
    requires |random| == 32 && |session| < 256 && |compression| < 256 && 2 * |ciphers| < 0x1_0000
    requires |PutHandshake(PutBody(version, random, session, PutSuites(ciphers, compression, tail)))| < 0x1_0000
    requires HoldsAt(p, 0,
      PutRecord(recordVersion, PutHandshake(PutBody(version, random, session, PutSuites(ciphers, compression, tail)))))
    requires end == 47 + |session| + 2 * |ciphers| + |compression|
    ensures HoldsAt(p, end, tail) && Parse(p) == Parsed(Hello(version, Filter(Plain, ciphers), Extensions(p, end)))
  {
    RecordReadsBack(p, recordVersion, PutBody(version, random, session, PutSuites(ciphers, compression, tail)));
    BodyReadsBack(p, version, random, session, PutSuites(ciphers, compression, tail));
    ParseOfFields(p, |session|, version);
    var pos := 44 + |session|;
    AfterSessionReadsBack(p, version, pos, ciphers, compression, tail, end);
  }

  lemma {:induction false} AfterSessionReadsBack(p: Bytes, version: Word, pos: nat, ciphers: seq<Word>, compression: Bytes, tail: Bytes, end: nat)
    requires |compression| < 256 && 2 * |ciphers| < 0x1_0000
    requires HoldsAt(p, pos, PutSuites(ciphers, compression, tail)) && end == pos + 3 + 2 * |ciphers| + |compression|
    ensures HoldsAt(p, end, tail)
    ensures AfterSession(p, version, pos) == Parsed(Hello(version, Filter(Plain, ciphers), Extensions(p, end)))
  {
    SuitesFields(p, pos, ciphers, compression, tail, pos + 2 + 2 * |ciphers|, end);
    SuitesReadBack(p, version, pos, ciphers, end);
  }

  lemma {:induction false} ParseOfFields(p: Bytes, n: Byte, version: Word)
    requires |p| >= 44 && p[0] == 0x16 && |p| >= 5 + Get16(p, 3) && p[5] == 1 && Get16(p, 9) == version && p[43] == n
    ensures Parse(p) == AfterSession(p, version, 44 + n as int)
  {
  }

  /** How long a hello is up to its extension block. */
  function BareSize(s: Sent): nat { 47 + |s.session| + 2 * |s.ciphers| + |s.compression| }

  lemma {:induction false} SentFields(p: Bytes, s: Sent, end: nat)
    requires ValidSent(s) && HoldsAt(p, 0, PutHello(s)) && end == BareSize(s)
    ensures |PutHello(s)| == end + |TailOf(s)| && HoldsAt(p, end, TailOf(s))
    ensures Parse(p) == Parsed(Hello(s.version, Filter(Plain, s.ciphers), Extensions(p, end)))
  {
    HelloFields(p, s.recordVersion, s.version, s.random, s.session, s.ciphers, s.compression, TailOf(s), end);
  }

  /**
   * A hello with an extension block is read back whatever bytes follow it: version, ciphers, extension types,
   * groups, point formats and server name, without GREASE.
   */
  lemma {:induction false} HelloReadsBack(p: Bytes, s: Sent)
    requires ValidSent(s) && HoldsAt(p, 0, PutHello(s)) && s.extensions.Some?
    ensures Parse(p) == Parsed(Hello(s.version, Filter(Plain, s.ciphers), FoundIn(s.extensions.value)))
  {
    var end := BareSize(s);
    SentFields(p, s, end);
    TailReadsBack(p, end, s.extensions.value);
  }

  /** The text is that of the bytes, each below 128 as the character of its number, each other one as U+FFFD. */
  predicate SpelledBy(text: string, bytes: Bytes) {
    |text| == |bytes| && forall i :: 0 <= i < |text| ==> text[i] as int == if bytes[i] < 128 then bytes[i] else 0xFFFD
  }

  /** The server name reported is what the last server name extension spells, without white space at its ends. */
  lemma {:induction false} ServerNameIsSpelled(p: Bytes, s: Sent, before: seq<Extension>, name: Bytes, after: seq<Extension>)
    returns (text: string, i: nat, j: nat)
    requires ValidSent(s) && HoldsAt(p, 0, PutHello(s)) && s.extensions == Some(before + [ServerName(name)] + after)
    requires forall e :: e in after ==> !e.ServerName?
    ensures SpelledBy(text, name) && i <= j <= |text| && Trimmed(IsSpace, text[i..j])
    ensures forall k :: 0 <= k < i || j <= k < |text| ==> IsSpace(text[k])
    ensures Parse(p).Parsed? && Parse(p).hello.found.sni == Some(text[i..j])
  {
    HelloReadsBack(p, s);
    text := DecodeAscii(name);
    i, j := TrimMeaning(IsSpace, text);
    NoNameBehind(after);
    NameFoundIn(before, name, after);
  }

  lemma {:induction false} NoNameBehind(es: seq<Extension>)
    requires forall e :: e in es ==> !e.ServerName?
    ensures FoundIn(es).sni == None
  {
    if es != [] {
      assert forall e :: e in es[1..] ==> e in es;
      NoNameBehind(es[1..]);
      assert es[0] in es;
    }
  }

  lemma {:induction false} NameFoundIn(before: seq<Extension>, name: Bytes, after: seq<Extension>)
    requires FoundIn(after).sni == None
    ensures FoundIn(before + [ServerName(name)] + after).sni == Some(NameSent(name))
    decreases |before|
  {
    var all := before + [ServerName(name)] + after;
    if before == [] {
      assert all[1..] == after;
    } else {
      assert all[1..] == before[1..] + [ServerName(name)] + after;
      NameFoundIn(before[1..], name, after);
    }
  }

  // ---------------------------------------------------------------- hellos without an extension block

  /** No complete extension but GREASE lies between `pos` and `end`. */
  predicate OnlyGrease(p: Bytes, pos: nat, end: nat)
    decreases |p| - pos
  {
    pos + 4 <= end && pos + 4 <= |p| && pos + 4 + Get16(p, pos + 2) <= |p| ==>
      IsGrease(Get16(p, pos)) && OnlyGrease(p, pos + 4 + Get16(p, pos + 2), end)
  }

  lemma {:induction false} ScanAddsTypes(p: Bytes, pos: nat, end: nat, f: Found)
    ensures |Scan(NotedRaw, p, pos, end, f).types| >= |f.types|
    ensures OnlyGrease(p, pos, end) ==> Scan(NotedRaw, p, pos, end, f) == f
    ensures !OnlyGrease(p, pos, end) ==> |Scan(NotedRaw, p, pos, end, f).types| > |f.types|
    decreases |p| - pos
  {
    if pos + 4 <= end && pos + 4 <= |p| {
      var next := pos + 4 + Get16(p, pos + 2);
      if next <= |p| {
        ScanAddsTypes(p, next, end, NotedRaw(f, Raw(Get16(p, pos), p[pos + 4..next])));
      }
    }
  }

  /** What follows the record is harmless: too short for a block length, or holding no extension the loop would note. */
  predicate HarmlessTail(p: Bytes, end: nat) {
    |p| < end + 2 || OnlyGrease(p, end + 2, end + 2 + Get16(p, end))
  }

  /**
   * The parser does not stop at the end of the record: a hello without extensions is read back exactly when
   * the bytes behind it do not look like extensions.
   */
  lemma {:induction false} BareHelloReadsBackExactly(p: Bytes, s: Sent, end: nat)
    requires ValidSent(s) && HoldsAt(p, 0, PutHello(s)) && s.extensions.None? && end == BareSize(s)
    ensures end == |PutHello(s)|
    ensures Parse(p) == Parsed(Hello(s.version, Filter(Plain, s.ciphers), NOTHING)) <==> HarmlessTail(p, end)
  {
    SentFields(p, s, end);
    NothingExactly(p, end);
  }

  lemma {:induction false} NothingExactly(p: Bytes, end: nat)
    ensures Extensions(p, end) == NOTHING <==> HarmlessTail(p, end)
  {
    if |p| >= end + 2 {
      ScanAddsTypes(p, end + 2, end + 2 + Get16(p, end), NOTHING);
    }
  }

  /** For example, an empty extension of type 5 behind any hello without extensions is reported as the hello's own. */
  lemma {:induction false} TrailingExtensionIsReported(s: Sent)
    requires ValidSent(s) && s.extensions.None?
    ensures Parse(PutHello(s) + [0, 4, 0, 5, 0, 0]) != Parsed(Hello(s.version, Filter(Plain, s.ciphers), NOTHING))
  {
    var hello := PutHello(s);
    var p, end := hello + [0, 4, 0, 5, 0, 0], BareSize(s);
    assert p[0..|hello|] == hello;
    BareHelloReadsBackExactly(p, s, end);
    assert p[end..] == [0, 4, 0, 5, 0, 0];
    assert p[end] == 0 && p[end + 1] == 4 && p[end + 2] == 0 && p[end + 3] == 5 && p[end + 4] == 0 && p[end + 5] == 0;
    assert !IsGrease(5);
    assert !OnlyGrease(p, end + 2, end + 6);
  }

  /** `struct.error` comes exactly from a suite list of odd length that ends with the buffer. */
  lemma {:induction false} RaisesAtAnOddEnd(p: Bytes)
    ensures Parse(p) == Raises <==>
            && |p| >= 46 && p[0] == 0x16 && |p| >= 5 + Get16(p, 3) && p[5] == 1
            && |p| >= 46 + p[43] as int
            && Get16(p, 44 + p[43] as int) % 2 == 1 && |p| == 46 + p[43] as int + Get16(p, 44 + p[43] as int)
  {
  }

  /** For example a hello cut after the first byte of its only cipher. */
  lemma {:induction false} OddCiphersRaise(p: Bytes)
    requires p == [0x16, 3, 1, 0, 42, 1] + seq(38, i => 0) + [0, 1, 7]
    ensures Parse(p) == Raises
  {
    assert |p| == 47 && p[0] == 0x16 && p[3] == 0 && p[4] == 42 && p[5] == 1;
    assert p[43] == 0 && p[44] == 0 && p[45] == 1;
    RaisesAtAnOddEnd(p);
  }

  // ---------------------------------------------------------------- GREASE is invisible

  lemma {:induction false} FilterTwice<T>(keep: T -> bool, s: seq<T>)
    ensures Filter(keep, Filter(keep, s)) == Filter(keep, s)
  {
    if s != [] {
      FilterTwice(keep, s[1..]);
      FilterCons(keep, s[0], Filter(keep, s[1..]));
    }
  }

  /** The extensions without those of a GREASE type and without GREASE groups. */
  function Degreased(es: seq<Extension>): seq<Extension> {
    if es == [] then []
    else if IsGrease(KindOf(es[0])) then Degreased(es[1..])
    else [if es[0].SupportedGroups? then SupportedGroups(Filter(Plain, es[0].groups)) else es[0]] + Degreased(es[1..])
  }

  lemma {:induction false} DegreasedTellsTheSame(es: seq<Extension>)
    requires ValidExtensions(es)
    ensures FoundIn(Degreased(es)) == FoundIn(es)
  {
    if es != [] {
      DegreasedTellsTheSame(es[1..]);
      if IsGrease(KindOf(es[0])) {
        NotGreaseKinds();
        NothingJoined(FoundIn(es[1..]));
      } else {
        assert Degreased(es)[1..] == Degreased(es[1..]);
        if es[0].SupportedGroups? {
          FilterTwice(Plain, es[0].groups);
        }
      }
    }
  }

  lemma {:induction false} NotGreaseKinds()
    ensures !IsGrease(0) && !IsGrease(10) && !IsGrease(11)
  {
  }

  /** Hellos that differ in GREASE among their ciphers, groups or extensions only are parsed alike. */
  lemma {:induction false} GreaseIsInvisible(p: Bytes, s: Sent, q: Bytes, t: Sent)
    requires ValidSent(s) && HoldsAt(p, 0, PutHello(s)) && s.extensions.Some?
    requires ValidSent(t) && HoldsAt(q, 0, PutHello(t)) && t.extensions.Some?
    requires s.version == t.version && Filter(Plain, s.ciphers) == Filter(Plain, t.ciphers)
    requires Degreased(s.extensions.value) == Degreased(t.extensions.value)
    ensures Parse(p) == Parse(q)
  {
    HelloReadsBack(p, s);
    HelloReadsBack(q, t);
    DegreasedTellsTheSame(s.extensions.value);
    DegreasedTellsTheSame(t.extensions.value);
  }

  /** In particular it does not matter whether a GREASE value stands anywhere in a list of ciphers or groups. */
  lemma {:induction false} GreaseInserted(before: seq<Word>, g: Word, after: seq<Word>)
    requires IsGrease(g)
    ensures Filter(Plain, before + [g] + after) == Filter(Plain, before + after)
  {
    FilterAppend(Plain, before + [g], after);
    FilterSnoc(Plain, before, g);
    FilterAppend(Plain, before, after);
  }

  lemma {:induction false} GreaseExtensionInserted(before: seq<Extension>, g: Word, data: Bytes, after: seq<Extension>)
    requires IsGrease(g)
    ensures Degreased(before + [Other(g, data)] + after) == Degreased(before + after)
    decreases |before|
  {
    var with := before + [Other(g, data)] + after;
    if before == [] {
      assert with[1..] == after && before + after == after;
    } else {
      assert with[1..] == before[1..] + [Other(g, data)] + after && (before + after)[1..] == before[1..] + after;
      GreaseExtensionInserted(before[1..], g, data, after);
    }
  }

  // ---------------------------------------------------------------- JA3

  function Dashed(ws: seq<nat>): string { Join(Map(Decimal, ws), '-') }

  /** The text whose hash is the JA3 fingerprint. */
  function Ja3(h: Hello): string {
    Join([Decimal(h.version), Dashed(h.ciphers), Dashed(h.found.types), Dashed(h.found.groups), Dashed(h.found.formats)], ',')
  }

  lemma {:induction false} DashedInjective(a: seq<nat>, b: seq<nat>)
    requires Dashed(a) == Dashed(b)
    ensures a == b
  {
    var fa, fb := Map(Decimal, a), Map(Decimal, b);
    if a == [] || b == [] {
      EmptyDashed(a);
      EmptyDashed(b);
    } else {
      forall f | f in fa + fb
        ensures '-' !in f
      {
      }
      assert forall f :: f in fa ==> f in fa + fb;
      assert forall f :: f in fb ==> f in fa + fb;
      SplitOfJoin(fa, '-');
      SplitOfJoin(fb, '-');
      forall i | 0 <= i < |a|
        ensures a[i] == b[i]
      {
        assert fa[i] == fb[i];
        DecimalInjective(a[i], b[i]);
      }
    }
  }

  lemma {:induction false} EmptyDashed(a: seq<nat>)
    ensures Dashed(a) == "" <==> a == []
  {
    if a != [] {
      assert Map(Decimal, a)[0] == Decimal(a[0]);
    }
  }

  lemma {:induction false} DashedHasNoComma(ws: seq<nat>)
    ensures ',' !in Dashed(ws)
  {
    var fields := Map(Decimal, ws);
    forall f | f in fields
      ensures ',' !in f
    {
    }
    JoinHasNo(fields, '-', ',');
  }

  /** The numbers in decimal with dashes between them, nothing if there are none. */
  predicate DashedText(text: string, ws: seq<nat>) {
    if ws == [] then text == "" else Split(text, '-') == Map(Decimal, ws)
  }

  lemma {:induction false} DashedTells(ws: seq<nat>)
    ensures DashedText(Dashed(ws), ws)
  {
    if ws != [] {
      forall f | f in Map(Decimal, ws)
        ensures '-' !in f
      {
      }
      SplitOfJoin(Map(Decimal, ws), '-');
    }
  }

  /** The JA3 text has five fields with commas between them: version, ciphers, extension types, groups, point formats. */
  lemma {:induction false} Ja3HasFiveFields(h: Hello)
    ensures var fields := Split(Ja3(h), ',');
            && |fields| == 5 && fields[0] == Decimal(h.version) && DashedText(fields[1], h.ciphers)
            && DashedText(fields[2], h.found.types) && DashedText(fields[3], h.found.groups) && DashedText(fields[4], h.found.formats)
  {
    Ja3Splits(h);
    DashedTells(h.ciphers);
    DashedTells(h.found.types);
    DashedTells(h.found.groups);
    DashedTells(h.found.formats);
  }

  /** Equal JA3 texts come from equal versions, ciphers, extension types, groups and point formats. */
  lemma {:induction false} Ja3Injective(h: Hello, k: Hello)
    requires Ja3(h) == Ja3(k)
    ensures h.version == k.version && h.ciphers == k.ciphers
    ensures h.found.types == k.found.types && h.found.groups == k.found.groups && h.found.formats == k.found.formats
  {
    Ja3Splits(h);
    Ja3Splits(k);
    var a, b := Split(Ja3(h), ','), Split(Ja3(k), ',');
    assert a[0] == b[0] && a[1] == b[1] && a[2] == b[2] && a[3] == b[3] && a[4] == b[4];
    DecimalInjective(h.version, k.version);
    DashedInjective(h.ciphers, k.ciphers);
    DashedInjective(h.found.types, k.found.types);
    DashedInjective(h.found.groups, k.found.groups);
    DashedInjective(h.found.formats, k.found.formats);
  }

  lemma {:induction false} Ja3Splits(h: Hello)
    ensures Split(Ja3(h), ',')
         == [Decimal(h.version), Dashed(h.ciphers), Dashed(h.found.types), Dashed(h.found.groups), Dashed(h.found.formats)]
  {
    DashedHasNoComma(h.ciphers);
    DashedHasNoComma(h.found.types);
    DashedHasNoComma(h.found.groups);
    DashedHasNoComma(h.found.formats);
    SplitOfJoin([Decimal(h.version), Dashed(h.ciphers), Dashed(h.found.types), Dashed(h.found.groups), Dashed(h.found.formats)], ',');
  }
}
