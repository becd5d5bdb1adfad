/** The daily neighbourhood file: normalisation, merging, and its independence from batching. */
module Neighbourhood {
  import opened Prelude
  import opened Text

  // ---------------------------------------------------------------- normalisation

  datatype Stamp = Absent | Stamped(text: string) | NotText

  /** The DHCP fields of an observation. */
  datatype DhcpInfo = DhcpInfo(messageType: Option<int>, vendorClass: Option<string>, clientId: Option<string>)

  const NO_DHCP := DhcpInfo(None, None, None)

  datatype Texts = Texts(hostname: Option<string>, vendor: Option<string>, os: Option<string>, interface: Option<string>,
                         switchPort: Option<string>)

  /** An observation as it comes in; None stands for a missing value or one of another type. */
  datatype Raw =
    | Raw(ip: string, mac: Option<string>, texts: Texts, entryType: Option<string>, source: Option<string>,
          observedAt: Stamp, rssi: Option<int>, dhcp: DhcpInfo)
    | NotARecord

  /** What does not depend on how often a record was stored and read again. */
  datatype Core = Core(ip: string, mac: string, texts: Texts, entryType: string, source: string, observedAt: string, rssi: Option<int>)

  datatype Entry = Entry(core: Core, sources: seq<string>, dhcp: DhcpInfo)

  function Colon(c: char): char { if c == '-' then ':' else c }

  predicate IsUpperHex(c: char) { IsDigit(c) || 'A' <= c <= 'F' }

  /** Six pairs of upper-case hexadecimal digits with colons between them. */
  predicate IsMacText(m: string) {
    |m| == 17 && forall i :: 0 <= i < 17 ==> if i % 3 == 2 then m[i] == ':' else IsUpperHex(m[i])
  }

  function HexValue(c: char): nat
    requires IsUpperHex(c)
  {
    if IsDigit(c) then c as int - 48 else c as int - 55
  }

  /** `_normalise_mac_address`: multicast addresses, the broadcast address among them, are refused. */
  function NormalMac(value: Option<string>): Option<string> {
    if value.None? then None
    else
      var m := Upper(Map(Colon, Trim(IsSpace, value.value)));
      if !IsMacText(m) || HexValue(m[1]) % 2 == 1 then None else Some(m)
  }

  predicate Forbidden(c: char) { c == '\r' || c == '\n' || c == '\0' }

  function NormalText(value: Option<string>): Option<string> {
    if value.None? then None
    else
      var t := Trim(IsSpace, value.value);
      if t == "" || |t| > 255 || (exists i :: 0 <= i < |t| && Forbidden(t[i])) then None else Some(t)
  }

  /** Neither multicast nor unspecified, loopback or reserved. */
  predicate Allowed(q: seq<Byte>)
    requires |q| == 4
  {
    !(224 <= q[0]) && q != [0, 0, 0, 0] && q[0] != 127
  }

  function NormalIp(text: string): Option<string> {
    var q := ParseQuad(Trim(IsSpace, text));
    if q.Some? && |q.value| == 4 && Allowed(q.value) then Some(DottedQuad(q.value)) else None
  }

  function NormalStamp(iso: string -> bool, now: string, s: Stamp): Option<string> {
    match s
    case Absent => Some(now)
    case NotText => None
    case Stamped(text) => if iso(text) then Some(text) else None
  }

  function NormalTexts(t: Texts): Texts {
    Texts(NormalText(t.hostname), NormalText(t.vendor), NormalText(t.os), NormalText(t.interface), NormalText(t.switchPort))
  }

  function NormalRssi(r: Option<int>): Option<int> { if r.Some? && -130 <= r.value <= 30 then r else None }

  function NormalDhcp(source: string, d: DhcpInfo): DhcpInfo {
    if source != "dhcp" then NO_DHCP
    else DhcpInfo(if d.messageType.Some? && 1 <= d.messageType.value <= 8 then d.messageType else None,
                  NormalText(d.vendorClass), NormalText(d.clientId))
  }

  predicate KnownSource(s: Option<string>) { s == Some("arp") || s == Some("dhcp") }

  predicate KnownType(s: Option<string>) { s == Some("dynamic") || s == Some("static") }

  /** `normalise_neighbourhood_observation`; `iso` says which texts are timestamps, `now` is the clock. */
  function Normalised(iso: string -> bool, now: string, r: Raw): Option<Entry> {
    if r.NotARecord? || !KnownSource(r.source) || !KnownType(r.entryType) then None
    else
      var ip, mac, stamp := NormalIp(r.ip), NormalMac(r.mac), NormalStamp(iso, now, r.observedAt);
      if ip.None? || mac.None? || stamp.None? then None
      else Some(Entry(Core(ip.value, mac.value, NormalTexts(r.texts), r.entryType.value, r.source.value, stamp.value, NormalRssi(r.rssi)),
                      [r.source.value], NormalDhcp(r.source.value, r.dhcp)))
  }

  // ---------------------------------------------------------------- what a valid observation is

  /** `inner` is the text without the white space at its ends. */
  ghost predicate IsTrimmedOf(inner: string, text: string) {
    exists i, j :: IsMiddle(inner, text, i, j)
  }

  ghost predicate IsMiddle(inner: string, text: string, i: int, j: int) {
    && 0 <= i <= j <= |text| && inner == text[i..j] && Trimmed(IsSpace, inner)
    && forall k :: 0 <= k < i || j <= k < |text| ==> IsSpace(text[k])
  }

  lemma {:induction false} TrimIsMiddle(text: string)
    ensures IsTrimmedOf(Trim(IsSpace, text), text)
  {
    var i, j := TrimMeaning(IsSpace, text);
    assert IsMiddle(Trim(IsSpace, text), text, i, j);
  }

  /** A text counts if at least one and at most 255 characters are left of it, no line end and no NUL among them. */
  ghost predicate TextTells(value: Option<string>, kept: Option<string>) {
    match value
    case None => kept == None
    case Some(text) =>
      exists inner :: IsTrimmedOf(inner, text) &&
        kept == if 1 <= |inner| <= 255 && (forall c :: c in inner ==> c !in "\r\n\0") then Some(inner) else None
  }

  lemma {:induction false} NormalTextTells(value: Option<string>)
    ensures TextTells(value, NormalText(value))
  {
    if value.Some? {
      TrimIsMiddle(value.value);
      var t := Trim(IsSpace, value.value);
      assert forall i :: 0 <= i < |t| ==> t[i] in t && (Forbidden(t[i]) <==> t[i] in "\r\n\0");
    }
  }

  /** Any address from 0.0.0.1 to 223.255.255.255 but those of 127.0.0.0/8. */
  predicate IsHostAddress(q: seq<Byte>) { |q| == 4 && q[0] < 224 && q[0] != 127 && (q[0] > 0 || q[1] > 0 || q[2] > 0 || q[3] > 0) }

  /** An address counts if what is left of the text is a host's address as it is written. */
  lemma {:induction false} NormalIpTells(text: string) returns (inner: string)
    ensures IsTrimmedOf(inner, text)
    ensures NormalIp(text).Some? <==> exists q: seq<Byte> :: IsHostAddress(q) && DottedQuad(q) == inner
    ensures NormalIp(text).Some? ==> NormalIp(text).value == inner
  {
    inner := Trim(IsSpace, text);
    TrimIsMiddle(text);
    QuadTells(inner);
  }

  lemma {:induction false} QuadTells(inner: string)
    ensures var q := ParseQuad(inner);
            q.Some? && |q.value| == 4 && Allowed(q.value) <==> exists q: seq<Byte> :: IsHostAddress(q) && DottedQuad(q) == inner
    ensures ParseQuad(inner).Some? ==> |ParseQuad(inner).value| == 4 && DottedQuad(ParseQuad(inner).value) == inner
  {
    ParseQuadMeaning(inner);
    if ParseQuad(inner).Some? {
      AllowedTells(ParseQuad(inner).value);
    }
  }

  lemma {:induction false} AllowedTells(q: seq<Byte>)
    requires |q| == 4
    ensures Allowed(q) <==> IsHostAddress(q)
  {
    assert q == [q[0], q[1], q[2], q[3]];
  }

  predicate IsAnyHex(c: char) { '0' <= c <= '9' || 'a' <= c <= 'f' || 'A' <= c <= 'F' }

  /** Six pairs of hexadecimal digits in any case with colons or dashes between them, the first byte even. */
  predicate IsHostMac(m: string) {
    && |m| == 17 && (forall i :: 0 <= i < 17 ==> if i % 3 == 2 then m[i] in ":-" else IsAnyHex(m[i]))
    && m[1] in "02468aceACE"
  }

  /** A MAC address counts if it is a single host's; it is kept in upper case with colons. */
  lemma {:induction false} NormalMacTells(text: string) returns (inner: string)
    ensures IsTrimmedOf(inner, text)
    ensures NormalMac(Some(text)).Some? <==> IsHostMac(inner)
    ensures NormalMac(Some(text)).Some? ==>
              var m := NormalMac(Some(text)).value;
              |m| == 17 && forall i :: 0 <= i < 17 ==> m[i] == if i % 3 == 2 then ':' else UpperChar(inner[i])
  {
    inner := Trim(IsSpace, text);
    TrimIsMiddle(text);
    var m := Upper(Map(Colon, inner));
    assert |m| == |inner| && forall i :: 0 <= i < |m| ==> m[i] == UpperChar(Colon(inner[i]));
    forall i | 0 <= i < |m|
      ensures m[i] == ':' <==> inner[i] in ":-"
      ensures IsUpperHex(m[i]) <==> IsAnyHex(inner[i])
      ensures m[i] != ':' ==> m[i] == UpperChar(inner[i])
      ensures IsUpperHex(m[i]) ==> (HexValue(m[i]) % 2 == 0 <==> inner[i] in "02468aceACE")
    {
      MacCharTells(inner[i]);
    }
  }

  lemma {:induction false} MacCharTells(c: char)
    ensures var u := UpperChar(Colon(c));
            && (u == ':' <==> c in ":-") && (IsUpperHex(u) <==> IsAnyHex(c)) && (u != ':' ==> u == UpperChar(c))
            && (IsUpperHex(u) ==> (HexValue(u) % 2 == 0 <==> c in "02468aceACE"))
  {
  }

  /** What the fields of a record are, given the observation it was made of. */
  ghost predicate FieldsTell(r: Raw, now: string, e: Entry)
    requires r.Raw?
  {
    && NormalIp(r.ip) == Some(e.core.ip) && NormalMac(r.mac) == Some(e.core.mac)
    && TextTells(r.texts.hostname, e.core.texts.hostname) && TextTells(r.texts.vendor, e.core.texts.vendor)
    && TextTells(r.texts.os, e.core.texts.os) && TextTells(r.texts.interface, e.core.texts.interface)
    && TextTells(r.texts.switchPort, e.core.texts.switchPort)
    && r.entryType == Some(e.core.entryType) && r.source == Some(e.core.source) && e.sources == [e.core.source]
    && e.core.observedAt == (if r.observedAt.Absent? then now else if r.observedAt.Stamped? then r.observedAt.text else "")
    && (e.core.rssi == if r.rssi.Some? && -130 <= r.rssi.value && r.rssi.value <= 30 then r.rssi else None)
    && (e.core.source == "dhcp" ==>
          && (e.dhcp.messageType == if r.dhcp.messageType.Some? && 1 <= r.dhcp.messageType.value <= 8 then r.dhcp.messageType else None)
          && TextTells(r.dhcp.vendorClass, e.dhcp.vendorClass) && TextTells(r.dhcp.clientId, e.dhcp.clientId))
    && (e.core.source != "dhcp" ==> e.dhcp == DhcpInfo(None, None, None))
  }

  /**
   * An observation is valid exactly if it comes from ARP or DHCP, is dynamic or static, has an address and a MAC address
   * that count, and no time or one that is a timestamp; and this is what its record says.
   */
  lemma {:induction false} NormalisedTells(iso: string -> bool, now: string, r: Raw)
    ensures Normalised(iso, now, r).Some? <==>
              && r.Raw? && r.source.Some? && r.source.value in {"arp", "dhcp"}
              && r.entryType.Some? && r.entryType.value in {"dynamic", "static"}
              && NormalIp(r.ip).Some? && NormalMac(r.mac).Some?
              && (r.observedAt.Absent? || (r.observedAt.Stamped? && iso(r.observedAt.text)))
    ensures Normalised(iso, now, r).Some? ==> FieldsTell(r, now, Normalised(iso, now, r).value)
  {
    if r.Raw? {
      NormalTextTells(r.texts.hostname);
      NormalTextTells(r.texts.vendor);
      NormalTextTells(r.texts.os);
      NormalTextTells(r.texts.interface);
      NormalTextTells(r.texts.switchPort);
      NormalTextTells(r.dhcp.vendorClass);
      NormalTextTells(r.dhcp.clientId);
    }
  }

  // ---------------------------------------------------------------- merging

  function Key(e: Entry): (string, string) { (e.core.mac, e.core.ip) }

  function Fill<T>(kept: Option<T>, offered: Option<T>): Option<T> { if kept.Some? then kept else offered }

  function FilledTexts(a: Texts, b: Texts): Texts {
    Texts(Fill(a.hostname, b.hostname), Fill(a.vendor, b.vendor), Fill(a.os, b.os), Fill(a.interface, b.interface),
          Fill(a.switchPort, b.switchPort))
  }

  /** Gaps are filled, the last signal strength counts, and time, source and type are those of the newer record. */
  function AbsorbedCore(a: Core, b: Core): Core {
    var newer := StringLt(a.observedAt, b.observedAt);
    Core(a.ip, a.mac, FilledTexts(a.texts, b.texts), if newer then b.entryType else a.entryType,
         if newer then b.source else a.source, if newer then b.observedAt else a.observedAt,
         if b.rssi.Some? then b.rssi else a.rssi)
  }

  function FilledDhcp(a: DhcpInfo, b: DhcpInfo): DhcpInfo {
    DhcpInfo(Fill(a.messageType, b.messageType), Fill(a.vendorClass, b.vendorClass), Fill(a.clientId, b.clientId))
  }

  function WithSources(a: seq<string>, b: seq<string>): seq<string>
    decreases |b|
  {
    if b == [] then a else WithSources(if b[0] in a then a else a + [b[0]], b[1..])
  }

  function Absorbed(a: Entry, b: Entry): Entry {
    Entry(AbsorbedCore(a.core, b.core), WithSources(a.sources, b.sources), FilledDhcp(a.dhcp, b.dhcp))
  }

  /** Where a device stands among the merged records, or their number. */
  function Place(es: seq<Entry>, key: (string, string)): (i: nat)
    ensures i <= |es| && (i < |es| ==> Key(es[i]) == key)
    ensures forall j :: 0 <= j < i ==> Key(es[j]) != key
  {
    if es == [] || Key(es[0]) == key then 0 else 1 + Place(es[1..], key)
  }

  function Upserted(es: seq<Entry>, e: Entry): seq<Entry> {
    var i := Place(es, Key(e));
    if i == |es| then es + [e] else es[i := Absorbed(es[i], e)]
  }

  function Taken(iso: string -> bool, now: string, es: seq<Entry>, r: Raw): seq<Entry> {
    if Normalised(iso, now, r).None? then es else Upserted(es, Normalised(iso, now, r).value)
  }

  function Taking(iso: string -> bool, now: string): (seq<Entry>, Raw) -> seq<Entry> {
    (es: seq<Entry>, r: Raw) => Taken(iso, now, es, r)
  }

  function MergedInto(iso: string -> bool, now: string, es: seq<Entry>, rs: seq<Raw>): seq<Entry> {
    FoldLeft(Taking(iso, now), es, rs)
  }

  /** `merge_neighbourhood_observations`. */
  function Merged(iso: string -> bool, now: string, rs: seq<Raw>): seq<Entry> { MergedInto(iso, now, [], rs) }

  method MergeObservations(iso: string -> bool, now: string, rs: seq<Raw>) returns (merged: seq<Entry>)
    ensures merged == Merged(iso, now, rs)
  {
    merged := [];
    for i := 0 to |rs|
      invariant Merged(iso, now, rs) == MergedInto(iso, now, merged, rs[i..])
    {
      var e := Normalised(iso, now, rs[i]);
      assert rs[i..][1..] == rs[i + 1..];
      if e.None? {
        continue;
      }
      var at := FindPlace(merged, Key(e.value));
      if at == |merged| {
        merged := merged + [e.value];
      } else {
        merged := merged[at := Absorbed(merged[at], e.value)];
      }
    }
  }

  method FindPlace(es: seq<Entry>, key: (string, string)) returns (i: nat)
    ensures i == Place(es, key)
  {
    i := 0;
    while i < |es| && Key(es[i]) != key
      invariant i <= |es| && Place(es, key) == i + Place(es[i..], key)
    {
      assert es[i..][1..] == es[i + 1..];
      i := i + 1;
    }
  }

  // ---------------------------------------------------------------- stored records read again

  /** A stored entry as an observation: the file keeps the list of sources too, but nothing reads it. */
  function AsRaw(e: Entry): Raw {
    Raw(e.core.ip, Some(e.core.mac), e.core.texts, Some(e.core.entryType), Some(e.core.source), Stamped(e.core.observedAt), e.core.rssi, e.dhcp)
  }

  function AsRaws(es: seq<Entry>): seq<Raw> { Map(AsRaw, es) }

  /** What normalisation and merging produce. */
  predicate NormalCore(iso: string -> bool, c: Core) {
    && NormalIp(c.ip) == Some(c.ip) && NormalMac(Some(c.mac)) == Some(c.mac) && NormalTexts(c.texts) == c.texts
    && KnownType(Some(c.entryType)) && KnownSource(Some(c.source)) && iso(c.observedAt) && NormalRssi(c.rssi) == c.rssi
  }

  lemma {:induction false} NormalIpIsNormal(text: string)
    ensures NormalIp(text).Some? ==> NormalIp(NormalIp(text).value) == NormalIp(text)
  {
    var q := ParseQuad(Trim(IsSpace, text));
    if q.Some? && |q.value| == 4 {
      DottedQuadIsTrimmed(q.value);
      ParseOfDottedQuad(q.value);
    }
  }

  lemma {:induction false} NormalMacIsNormal(value: Option<string>)
    ensures NormalMac(value).Some? ==> NormalMac(NormalMac(value)) == NormalMac(value)
  {
    if NormalMac(value).Some? {
      var m := NormalMac(value).value;
      forall i | 0 <= i < 17
        ensures !IsSpace(m[i]) && Colon(m[i]) == m[i] && UpperChar(m[i]) == m[i]
      {
        assert if i % 3 == 2 then m[i] == ':' else IsUpperHex(m[i]);
      }
      TrimOfTrimmed(IsSpace, m);
      assert Map(Colon, m) == m;
      assert Upper(m) == m;
    }
  }

  lemma {:induction false} NormalTextIsNormal(value: Option<string>)
    ensures NormalText(NormalText(value)) == NormalText(value)
  {
    if value.Some? {
      TrimIsTrimmed(IsSpace, value.value);
      TrimOfTrimmed(IsSpace, Trim(IsSpace, value.value));
    }
  }

  lemma {:induction false} NormalTextsAreNormal(t: Texts)
    ensures NormalTexts(NormalTexts(t)) == NormalTexts(t)
  {
    NormalTextIsNormal(t.hostname);
    NormalTextIsNormal(t.vendor);
    NormalTextIsNormal(t.os);
    NormalTextIsNormal(t.interface);
    NormalTextIsNormal(t.switchPort);
  }

  lemma {:induction false} NormalisedIsNormal(iso: string -> bool, now: string, r: Raw)
    requires iso(now) && Normalised(iso, now, r).Some?
    ensures NormalCore(iso, Normalised(iso, now, r).value.core)
  {
    NormalIpIsNormal(r.ip);
    NormalMacIsNormal(r.mac);
    NormalTextsAreNormal(r.texts);
  }

  /** A normal stored record is read back with its core unchanged. */
  lemma {:induction false} StoredCoreReadsBack(iso: string -> bool, now: string, e: Entry)
    requires NormalCore(iso, e.core)
    ensures Normalised(iso, now, AsRaw(e)) == Some(Entry(e.core, [e.core.source], NormalDhcp(e.core.source, e.dhcp)))
  {
  }

  lemma {:induction false} AbsorbedIsNormal(iso: string -> bool, a: Core, b: Core)
    requires NormalCore(iso, a) && NormalCore(iso, b)
    ensures NormalCore(iso, AbsorbedCore(a, b))
  {
  }

  // ---------------------------------------------------------------- the shape of a merge

  ghost predicate GoodEntries(iso: string -> bool, es: seq<Entry>) {
    && (forall i :: 0 <= i < |es| ==> NormalCore(iso, es[i].core))
    && (forall i, j :: 0 <= i < j < |es| ==> Key(es[i]) != Key(es[j]))
  }

  /** All cores are normal and no two entries are of one device. */
  lemma {:induction false} AppendedIsGood(iso: string -> bool, es: seq<Entry>, e: Entry)
    requires GoodEntries(iso, es) && NormalCore(iso, e.core) && forall j :: 0 <= j < |es| ==> Key(es[j]) != Key(e)
    ensures GoodEntries(iso, es + [e])
  {
  }

  lemma {:induction false} AbsorbedIsGood(iso: string -> bool, es: seq<Entry>, i: nat, e: Entry)
    requires GoodEntries(iso, es) && i < |es| && NormalCore(iso, e.core)
    ensures GoodEntries(iso, es[i := Absorbed(es[i], e)])
  {
    var before := es[i];
    AbsorbedIsNormal(iso, before.core, e.core);
    ReplacedIsGood(iso, es, i, Absorbed(before, e));
  }

  lemma {:induction false} UpsertedIsGood(iso: string -> bool, es: seq<Entry>, e: Entry)
    requires GoodEntries(iso, es) && NormalCore(iso, e.core)
    ensures GoodEntries(iso, Upserted(es, e))
  {
    var i := Place(es, Key(e));
    if i < |es| {
      AbsorbedIsGood(iso, es, i, e);
    } else {
      AppendedIsGood(iso, es, e);
    }
  }

  lemma {:induction false} ReplacedIsGood(iso: string -> bool, es: seq<Entry>, i: nat, e: Entry)
    requires i < |es| && GoodEntries(iso, es) && NormalCore(iso, e.core) && Key(e) == Key(es[i])
    ensures GoodEntries(iso, es[i := e])
  {
    var es' := es[i := e];
    forall j | 0 <= j < |es'|
      ensures NormalCore(iso, es'[j].core) && Key(es'[j]) == Key(es[j])
    {
    }
  }

  lemma {:induction false} TakenIsGood(iso: string -> bool, now: string, es: seq<Entry>, r: Raw)
    requires iso(now) && GoodEntries(iso, es)
    ensures GoodEntries(iso, Taken(iso, now, es, r))
  {
    if Normalised(iso, now, r).Some? {
      NormalisedIsNormal(iso, now, r);
      UpsertedIsGood(iso, es, Normalised(iso, now, r).value);
    }
  }

  lemma {:induction false} MergedIsGood(iso: string -> bool, now: string, es: seq<Entry>, rs: seq<Raw>)
    requires iso(now) && GoodEntries(iso, es)
    ensures GoodEntries(iso, MergedInto(iso, now, es, rs))
    decreases |rs|
  {
    if rs != [] {
      TakenIsGood(iso, now, es, rs[0]);
      MergedIsGood(iso, now, Taken(iso, now, es, rs[0]), rs[1..]);
    }
  }

  lemma {:induction false} MergedIntoAppend(iso: string -> bool, now: string, es: seq<Entry>, a: seq<Raw>, b: seq<Raw>)
    ensures MergedInto(iso, now, es, a + b) == MergedInto(iso, now, MergedInto(iso, now, es, a), b)
  {
    FoldAppend(Taking(iso, now), es, a, b);
  }

  // ---------------------------------------------------------------- cores

  ghost predicate SameCores(a: seq<Entry>, b: seq<Entry>) {
    |a| == |b| && forall i :: 0 <= i < |a| ==> a[i].core == b[i].core
  }

  lemma {:induction false} SamePlace(a: seq<Entry>, b: seq<Entry>, key: (string, string))
    requires SameCores(a, b)
    ensures Place(a, key) == Place(b, key)
  {
    if a != [] && Key(a[0]) != key {
      SamePlace(a[1..], b[1..], key);
    }
  }

  /** Merging looks at cores only, as far as cores go. */
  lemma {:induction false} MergingKeepsSameCores(iso: string -> bool, now: string, a: seq<Entry>, b: seq<Entry>, rs: seq<Raw>)
    requires SameCores(a, b)
    ensures SameCores(MergedInto(iso, now, a, rs), MergedInto(iso, now, b, rs))
    decreases |rs|
  {
    if rs != [] {
      if Normalised(iso, now, rs[0]).Some? {
        SamePlace(a, b, Key(Normalised(iso, now, rs[0]).value));
      }
      MergingKeepsSameCores(iso, now, Taken(iso, now, a, rs[0]), Taken(iso, now, b, rs[0]), rs[1..]);
    }
  }

  /** What reading a stored entry gives: its sources and DHCP fields are rebuilt from its own source. */
  function Restore(e: Entry): Entry { Entry(e.core, [e.core.source], NormalDhcp(e.core.source, e.dhcp)) }

  function Restored(es: seq<Entry>): seq<Entry> { Map(Restore, es) }

  lemma {:induction false} TakenNew(iso: string -> bool, now: string, es: seq<Entry>, i: nat)
    requires GoodEntries(iso, es) && i < |es|
    ensures Taking(iso, now)(Map(Restore, es[..i]), AsRaw(es[i])) == Map(Restore, es[..i]) + [Restore(es[i])]
  {
    var before, e := Map(Restore, es[..i]), es[i];
    StoredCoreReadsBack(iso, now, e);
    forall j | 0 <= j < i
      ensures Key(before[j]) != Key(Restore(e))
    {
      assert Key(es[j]) != Key(es[i]);
    }
    NewIsAppended(before, Restore(e));
  }

  lemma {:induction false} NewIsAppended(es: seq<Entry>, e: Entry)
    requires forall j :: 0 <= j < |es| ==> Key(es[j]) != Key(e)
    ensures Upserted(es, e) == es + [e]
  {
  }

  /** A fold whose every step appends one element is a map. */
  lemma {:induction false} FoldThatAppends<E, R>(f: (seq<E>, R) -> seq<E>, raw: E -> R, restore: E -> E, es: seq<E>)
    requires forall i :: 0 <= i < |es| ==> f(Map(restore, es[..i]), raw(es[i])) == Map(restore, es[..i]) + [restore(es[i])]
    ensures FoldLeft(f, [], Map(raw, es)) == Map(restore, es)
    decreases |es|
  {
    if es != [] {
      var n := |es| - 1;
      assert forall i :: 0 <= i < n ==> es[..n][..i] == es[..i];
      FoldThatAppends(f, raw, restore, es[..n]);
      assert Map(raw, es) == Map(raw, es[..n]) + [raw(es[n])];
      FoldSnoc(f, [], Map(raw, es[..n]), raw(es[n]));
      assert Map(restore, es) == Map(restore, es[..n]) + [restore(es[n])];
    }
  }

  lemma {:induction false} StoredListReadsBack(iso: string -> bool, now: string, es: seq<Entry>)
    requires GoodEntries(iso, es)
    ensures Merged(iso, now, AsRaws(es)) == Restored(es)
  {
    forall i | 0 <= i < |es|
      ensures Taking(iso, now)(Map(Restore, es[..i]), AsRaw(es[i])) == Map(Restore, es[..i]) + [Restore(es[i])]
    {
      TakenNew(iso, now, es, i);
    }
    FoldThatAppends(Taking(iso, now), AsRaw, Restore, es);
  }

  /** Merging what was merged before together with more is merging everything at once. */
  lemma {:induction false} IncrementalMergeIsBatchMerge(iso: string -> bool, now: string, a: seq<Raw>, b: seq<Raw>)
    requires iso(now)
    ensures SameCores(Merged(iso, now, AsRaws(Merged(iso, now, a)) + b), Merged(iso, now, a + b))
  {
    var es := Merged(iso, now, a);
    MergedIsGood(iso, now, [], a);
    StoredListReadsBack(iso, now, es);
    MergedIntoAppend(iso, now, [], AsRaws(es), b);
    MergedIntoAppend(iso, now, [], a, b);
    MergingKeepsSameCores(iso, now, Restored(es), es, b);
  }

  lemma {:induction false} MergeIsIdempotent(iso: string -> bool, now: string, a: seq<Raw>)
    requires iso(now)
    ensures SameCores(Merged(iso, now, AsRaws(Merged(iso, now, a))), Merged(iso, now, a))
  {
    MergedIsGood(iso, now, [], a);
    StoredListReadsBack(iso, now, Merged(iso, now, a));
  }

  // ---------------------------------------------------------------- what a merged record says

  /** The valid observations, normalised, in order. */
  function Valids(iso: string -> bool, now: string, rs: seq<Raw>): seq<Entry> {
    if rs == [] then []
    else
      var front, e := Valids(iso, now, rs[..|rs| - 1]), Normalised(iso, now, rs[|rs| - 1]);
      if e.Some? then front + [e.value] else front
  }

  function IsOf(key: (string, string)): Entry -> bool { (e: Entry) => Key(e) == key }

  lemma {:induction false} PlaceOfNew(es: seq<Entry>, e: Entry, key: (string, string))
    ensures Place(es + [e], key) == if Place(es, key) < |es| then Place(es, key) else if Key(e) == key then |es| else |es| + 1
  {
    var i, j := Place(es, key), Place(es + [e], key);
    assert (es + [e])[|es|] == e;
    if i < |es| {
      assert (es + [e])[i] == es[i];
      assert forall k :: 0 <= k < i ==> (es + [e])[k] == es[k];
    } else {
      assert forall k :: 0 <= k < |es| ==> (es + [e])[k] == es[k];
    }
  }

  lemma {:induction false} PlaceOfUpserted(es: seq<Entry>, e: Entry, key: (string, string))
    ensures var es', i := Upserted(es, e), Place(es, key);
            if Key(e) == key then Place(es', key) == i && i < |es'| && es'[i] == (if i < |es| then Absorbed(es[i], e) else e)
            else (Place(es', key) < |es'| <==> i < |es|) && (i < |es| ==> Place(es', key) == i && es'[i] == es[i])
  {
    var at := Place(es, Key(e));
    if at == |es| {
      PlaceOfNew(es, e, key);
    } else {
      var es' := es[at := Absorbed(es[at], e)];
      assert forall k :: 0 <= k < |es| ==> Key(es'[k]) == Key(es[k]);
      SameKeysSamePlace(es, es', key);
    }
  }

  lemma {:induction false} SameKeysSamePlace(a: seq<Entry>, b: seq<Entry>, key: (string, string))
    requires |a| == |b| && forall k :: 0 <= k < |a| ==> Key(a[k]) == Key(b[k])
    ensures Place(a, key) == Place(b, key)
  {
    if a != [] && Key(a[0]) != key {
      SameKeysSamePlace(a[1..], b[1..], key);
    }
  }

  ghost predicate DeviceEntry(es: seq<Entry>, mine: seq<Entry>, key: (string, string)) {
    var i := Place(es, key);
    if mine == [] then i == |es| else i < |es| && es[i] == FoldLeft(Absorbed, mine[0], mine[1..])
  }

  lemma {:induction false} DeviceEntrySnoc(es: seq<Entry>, mine: seq<Entry>, e: Entry, key: (string, string))
    requires DeviceEntry(es, mine, key)
    ensures DeviceEntry(Upserted(es, e), if Key(e) == key then mine + [e] else mine, key)
  {
    PlaceOfUpserted(es, e, key);
    if Key(e) == key && mine != [] {
      assert (mine + [e])[0] == mine[0] && (mine + [e])[1..] == mine[1..] + [e];
      FoldSnoc(Absorbed, mine[0], mine[1..], e);
    }
  }

  /**
   * A device is in the merged list exactly if a valid observation names it, once, and its record is what its
   * first valid observation becomes by absorbing the later ones in order.
   */
  lemma {:induction false} OneEntryPerDevice(iso: string -> bool, now: string, rs: seq<Raw>, key: (string, string))
    ensures DeviceEntry(Merged(iso, now, rs), Filter(IsOf(key), Valids(iso, now, rs)), key)
  {
    if rs != [] {
      var n := |rs| - 1;
      var es, vs := Merged(iso, now, rs[..n]), Valids(iso, now, rs[..n]);
      OneEntryPerDevice(iso, now, rs[..n], key);
      assert rs == rs[..n] + [rs[n]];
      FoldSnoc(Taking(iso, now), [], rs[..n], rs[n]);
      if Normalised(iso, now, rs[n]).Some? {
        var e := Normalised(iso, now, rs[n]).value;
        FilterSnoc(IsOf(key), vs, e);
        DeviceEntrySnoc(es, Filter(IsOf(key), vs), e, key);
      }
    }
  }

  function FirstSome<T>(get: Entry -> Option<T>, es: seq<Entry>): Option<T> {
    if es == [] then None else if get(es[0]).Some? then get(es[0]) else FirstSome(get, es[1..])
  }

  lemma {:induction false} FirstSomeSnoc<T>(get: Entry -> Option<T>, es: seq<Entry>, e: Entry)
    ensures FirstSome(get, es + [e]) == Fill(FirstSome(get, es), get(e))
  {
    if es != [] {
      assert (es + [e])[1..] == es[1..] + [e];
      FirstSomeSnoc(get, es[1..], e);
    } else {
      assert (es + [e])[1..] == [];
    }
  }

  function HostnameOf(e: Entry): Option<string> { e.core.texts.hostname }

  function VendorOf(e: Entry): Option<string> { e.core.texts.vendor }

  function OsOf(e: Entry): Option<string> { e.core.texts.os }

  function InterfaceOf(e: Entry): Option<string> { e.core.texts.interface }

  function SwitchPortOf(e: Entry): Option<string> { e.core.texts.switchPort }

  /** Every text of a record is the first that any of its observations had. */
  lemma {:induction false} TextsAreTheFirst(first: Entry, rest: seq<Entry>)
    ensures var r, all := FoldLeft(Absorbed, first, rest).core.texts, [first] + rest;
            && r.hostname == FirstSome(HostnameOf, all) && r.vendor == FirstSome(VendorOf, all) && r.os == FirstSome(OsOf, all)
            && r.interface == FirstSome(InterfaceOf, all) && r.switchPort == FirstSome(SwitchPortOf, all)
    decreases |rest|
  {
    if rest == [] {
      assert ([first] + rest)[1..] == [];
    } else {
      var n := |rest| - 1;
      var all := [first] + rest[..n];
      TextsAreTheFirst(first, rest[..n]);
      assert rest == rest[..n] + [rest[n]] && [first] + rest == all + [rest[n]];
      FoldSnoc(Absorbed, first, rest[..n], rest[n]);
      FirstSomeSnoc(HostnameOf, all, rest[n]);
      FirstSomeSnoc(VendorOf, all, rest[n]);
      FirstSomeSnoc(OsOf, all, rest[n]);
      FirstSomeSnoc(InterfaceOf, all, rest[n]);
      FirstSomeSnoc(SwitchPortOf, all, rest[n]);
    }
  }

  function MessageOf(e: Entry): Option<int> { e.dhcp.messageType }

  function ClassOf(e: Entry): Option<string> { e.dhcp.vendorClass }

  function ClientOf(e: Entry): Option<string> { e.dhcp.clientId }

  /** So are the DHCP fields. */
  lemma {:induction false} DhcpFieldsAreTheFirst(first: Entry, rest: seq<Entry>)
    ensures var r, all := FoldLeft(Absorbed, first, rest).dhcp, [first] + rest;
            && r.messageType == FirstSome(MessageOf, all) && r.vendorClass == FirstSome(ClassOf, all)
            && r.clientId == FirstSome(ClientOf, all)
    decreases |rest|
  {
    if rest == [] {
      assert ([first] + rest)[1..] == [];
    } else {
      var n := |rest| - 1;
      var all := [first] + rest[..n];
      DhcpFieldsAreTheFirst(first, rest[..n]);
      assert rest == rest[..n] + [rest[n]] && [first] + rest == all + [rest[n]];
      FoldSnoc(Absorbed, first, rest[..n], rest[n]);
      FirstSomeSnoc(MessageOf, all, rest[n]);
      FirstSomeSnoc(ClassOf, all, rest[n]);
      FirstSomeSnoc(ClientOf, all, rest[n]);
    }
  }

  /** The observation at `i` is the first among the newest. */
  ghost predicate IsNewest(es: seq<Entry>, i: nat) {
    && i < |es|
    && (forall j :: 0 <= j < |es| ==> !StringLt(es[i].core.observedAt, es[j].core.observedAt))
    && (forall j :: 0 <= j < i ==> StringLt(es[j].core.observedAt, es[i].core.observedAt))
  }

  predicate SameSighting(a: Core, b: Core) {
    a.observedAt == b.observedAt && a.source == b.source && a.entryType == b.entryType
  }

  lemma {:induction false} NewestSnoc(es: seq<Entry>, i: nat, e: Entry)
    requires IsNewest(es, i)
    ensures IsNewest(es + [e], if StringLt(es[i].core.observedAt, e.core.observedAt) then |es| else i)
  {
    var t, u := es[i].core.observedAt, e.core.observedAt;
    if StringLt(t, u) {
      forall j | 0 <= j < |es|
        ensures StringLt(es[j].core.observedAt, u)
      {
        StringLeTotal(t, es[j].core.observedAt);
        StringLeTransitive(es[j].core.observedAt, t, u);
        if es[j].core.observedAt == u {
          StringLeAntisymmetric(t, u);
        }
      }
      forall j | 0 <= j < |es|
        ensures !StringLt(u, es[j].core.observedAt)
      {
        if StringLe(u, es[j].core.observedAt) {
          StringLeAntisymmetric(u, es[j].core.observedAt);
        }
      }
    }
  }

  /** Time, source and type of a record are those of the first among its newest observations. */
  lemma {:induction false} SightingIsTheNewest(first: Entry, rest: seq<Entry>) returns (i: nat)
    ensures IsNewest([first] + rest, i) && SameSighting(FoldLeft(Absorbed, first, rest).core, ([first] + rest)[i].core)
    decreases |rest|
  {
    if rest == [] {
      i := 0;
    } else {
      var n := |rest| - 1;
      var all := [first] + rest[..n];
      i := SightingIsTheNewest(first, rest[..n]);
      assert rest == rest[..n] + [rest[n]] && [first] + rest == all + [rest[n]];
      FoldSnoc(Absorbed, first, rest[..n], rest[n]);
      NewestSnoc(all, i, rest[n]);
      i := if StringLt(all[i].core.observedAt, rest[n].core.observedAt) then |all| else i;
    }
  }

  /** `signal` is what the last observation with a signal strength reported; None if there is none. */
  ghost predicate IsLastSignal(es: seq<Entry>, signal: Option<int>) {
    if signal.None? then forall i :: 0 <= i < |es| ==> es[i].core.rssi.None?
    else exists i :: 0 <= i < |es| && es[i].core.rssi == signal && forall j :: i < j < |es| ==> es[j].core.rssi.None?
  }

  lemma {:induction false} LastSignalSnoc(es: seq<Entry>, signal: Option<int>, e: Entry)
    requires IsLastSignal(es, signal)
    ensures IsLastSignal(es + [e], if e.core.rssi.Some? then e.core.rssi else signal)
  {
    var all := es + [e];
    assert all[|es|] == e;
    if e.core.rssi.None? && signal.Some? {
      var i :| 0 <= i < |es| && es[i].core.rssi == signal && forall j :: i < j < |es| ==> es[j].core.rssi.None?;
      assert all[i].core.rssi == signal;
    }
  }

  /** The signal strength is the last one reported. */
  lemma {:induction false} SignalIsTheLast(first: Entry, rest: seq<Entry>)
    ensures IsLastSignal([first] + rest, FoldLeft(Absorbed, first, rest).core.rssi)
    decreases |rest|
  {
    if rest == [] {
      assert ([first] + rest)[0] == first;
    } else {
      var n := |rest| - 1;
      SignalIsTheLast(first, rest[..n]);
      assert rest == rest[..n] + [rest[n]] && [first] + rest == ([first] + rest[..n]) + [rest[n]];
      FoldSnoc(Absorbed, first, rest[..n], rest[n]);
      LastSignalSnoc([first] + rest[..n], FoldLeft(Absorbed, first, rest[..n]).core.rssi, rest[n]);
    }
  }

  lemma {:induction false} WithOneSource(a: seq<string>, source: string)
    ensures WithSources(a, [source]) == if source in a then a else a + [source]
  {
    assert [source][1..] == [];
  }

  /** The sources are those of all observations. */
  lemma {:induction false} SourcesAreCollected(first: Entry, rest: seq<Entry>, source: string)
    requires forall i :: 0 <= i < |rest| ==> rest[i].sources == [rest[i].core.source]
    ensures source in FoldLeft(Absorbed, first, rest).sources
            <==> source in first.sources || exists i :: 0 <= i < |rest| && rest[i].core.source == source
    decreases |rest|
  {
    if rest != [] {
      var n := |rest| - 1;
      var last, before := rest[n], FoldLeft(Absorbed, first, rest[..n]);
      SourcesAreCollected(first, rest[..n], source);
      assert rest == rest[..n] + [last];
      FoldSnoc(Absorbed, first, rest[..n], last);
      WithOneSource(before.sources, last.core.source);
      assert forall i :: 0 <= i < n ==> rest[..n][i] == rest[i];
    }
  }

  // ---------------------------------------------------------------- the daily file

  /** Every record says when it was observed. */
  predicate AllStamped(rs: seq<Raw>) { forall i :: 0 <= i < |rs| ==> rs[i].Raw? ==> !rs[i].observedAt.Absent? }

  /** Then the clock does not matter. */
  lemma {:induction false} ClockIsIrrelevant(iso: string -> bool, now: string, later: string, es: seq<Entry>, rs: seq<Raw>)
    requires AllStamped(rs)
    ensures MergedInto(iso, now, es, rs) == MergedInto(iso, later, es, rs)
    decreases |rs|
  {
    if rs != [] {
      assert Normalised(iso, now, rs[0]) == Normalised(iso, later, rs[0]);
      ClockIsIrrelevant(iso, now, later, Taken(iso, now, es, rs[0]), rs[1..]);
    }
  }

  /** The file after updates with these batches, each at its own time. */
  function Daily(iso: string -> bool, batches: seq<(string, seq<Raw>)>): seq<Entry>
    decreases |batches|
  {
    if batches == [] then []
    else
      var (now, batch) := batches[|batches| - 1];
      Merged(iso, now, AsRaws(Daily(iso, batches[..|batches| - 1])) + batch)
  }

  function AllOf(batches: seq<(string, seq<Raw>)>): seq<Raw>
    decreases |batches|
  {
    if batches == [] then [] else AllOf(batches[..|batches| - 1]) + batches[|batches| - 1].1
  }

  predicate StampedBatches(iso: string -> bool, batches: seq<(string, seq<Raw>)>) {
    forall i :: 0 <= i < |batches| ==> iso(batches[i].0) && AllStamped(batches[i].1)
  }

  lemma {:induction false} AllOfIsStamped(iso: string -> bool, batches: seq<(string, seq<Raw>)>)
    requires StampedBatches(iso, batches)
    ensures AllStamped(AllOf(batches))
    decreases |batches|
  {
    if batches != [] {
      AllOfIsStamped(iso, batches[..|batches| - 1]);
    }
  }

  lemma {:induction false} DailyIsGood(iso: string -> bool, batches: seq<(string, seq<Raw>)>)
    requires StampedBatches(iso, batches)
    ensures GoodEntries(iso, Daily(iso, batches))
    decreases |batches|
  {
    if batches != [] {
      var n := |batches| - 1;
      DailyIsGood(iso, batches[..n]);
      MergedIsGood(iso, batches[n].0, [], AsRaws(Daily(iso, batches[..n])) + batches[n].1);
    }
  }

  /**
   * The daily file does not depend on how timestamped observations were cut into batches: its records, their
   * order and their cores are those of one merge of everything.
   */
  lemma {:induction false} BatchingDoesNotMatter(iso: string -> bool, batches: seq<(string, seq<Raw>)>, now: string)
    requires StampedBatches(iso, batches) && iso(now)
    ensures SameCores(Daily(iso, batches), Merged(iso, now, AllOf(batches)))
    decreases |batches|
  {
    if batches != [] {
      var n := |batches| - 1;
      var (at, batch) := batches[n];
      var front := batches[..n];
      var es, all := Daily(iso, front), AllOf(front);
      BatchingDoesNotMatter(iso, front, now);
      DailyIsGood(iso, front);
      AllOfIsStamped(iso, front);
      StoredListReadsBack(iso, at, es);
      MergedIntoAppend(iso, at, [], AsRaws(es), batch);
      assert SameCores(Restored(es), Merged(iso, now, all));
      MergingKeepsSameCores(iso, at, Restored(es), Merged(iso, now, all), batch);
      ClockIsIrrelevant(iso, at, now, Merged(iso, now, all), batch);
      MergedIntoAppend(iso, now, [], all, batch);
    }
  }

  class DailyNeighbourhood {
    var observations: seq<Entry>
    ghost var batches: seq<(string, seq<Raw>)>

    ghost predicate Valid(iso: string -> bool)
      reads this
    {
      observations == Daily(iso, batches)
    }

    constructor (iso: string -> bool)
      ensures Valid(iso) && batches == []
    {
      observations, batches := [], [];
    }

    /** `update_daily_neighbourhood`: the stored list is merged with the batch and written back. */
    method Update(iso: string -> bool, now: string, batch: seq<Raw>)
      requires Valid(iso)
      modifies this
      ensures Valid(iso) && batches == old(batches) + [(now, batch)]
    {
      assert (batches + [(now, batch)])[..|batches|] == batches;
      observations := MergeObservations(iso, now, AsRaws(observations) + batch);
      batches := batches + [(now, batch)];
    }
  }

  // ---------------------------------------------------------------- what batching does change

  /** The entry is rebuilt unchanged: its only source is its own, and it has DHCP fields only as a DHCP record. */
  predicate Stable(e: Entry) {
    e.sources == [e.core.source] && e.dhcp == NormalDhcp(e.core.source, e.dhcp)
  }

  /** Reading a stored list again changes nothing at all exactly when all its entries are stable. */
  lemma {:induction false} RestoringIsExact(iso: string -> bool, now: string, es: seq<Entry>)
    requires GoodEntries(iso, es)
    ensures Merged(iso, now, AsRaws(es)) == es <==> forall i :: 0 <= i < |es| ==> Stable(es[i])
  {
    StoredListReadsBack(iso, now, es);
    if forall i :: 0 <= i < |es| ==> Stable(es[i]) {
      forall i | 0 <= i < |es|
        ensures Restored(es)[i] == es[i]
      {
      }
      assert Restored(es) == es;
    } else {
      var i :| 0 <= i < |es| && !Stable(es[i]);
      assert Restored(es)[i] != es[i];
    }
  }

  lemma {:induction false} MergedTwo(iso: string -> bool, now: string, a: Raw, b: Raw)
    ensures Merged(iso, now, [a, b]) == Taken(iso, now, Taken(iso, now, [], a), b)
  {
    assert [a, b] == [a] + [b];
    FoldSnoc(Taking(iso, now), [], [a], b);
    FoldOne(Taking(iso, now), [], a);
  }

  /** What normalisation gives: one source, and DHCP fields that it would leave alone. */
  predicate FromOneSource(e: Entry, source: string) {
    e.sources == [source] && e.core.source == source && e.dhcp == NormalDhcp(source, e.dhcp)
  }

  lemma {:induction false} NormalisedIsFromOneSource(iso: string -> bool, now: string, r: Raw)
    requires Normalised(iso, now, r).Some?
    ensures FromOneSource(Normalised(iso, now, r).value, Normalised(iso, now, r).value.core.source)
  {
    NormalTextIsNormal(r.dhcp.vendorClass);
    NormalTextIsNormal(r.dhcp.clientId);
  }

  lemma {:induction false} ValidsAreFromOneSource(iso: string -> bool, now: string, rs: seq<Raw>, e: Entry)
    requires e in Valids(iso, now, rs)
    ensures FromOneSource(e, e.core.source)
  {
    var n := |rs| - 1;
    if e !in Valids(iso, now, rs[..n]) {
      NormalisedIsFromOneSource(iso, now, rs[n]);
    } else {
      ValidsAreFromOneSource(iso, now, rs[..n], e);
    }
  }

  lemma {:induction false} AbsorbedFromOneSource(a: Entry, b: Entry, source: string)
    requires FromOneSource(a, source) && FromOneSource(b, source)
    ensures FromOneSource(Absorbed(a, b), source)
  {
    WithOneSource(a.sources, source);
  }

  lemma {:induction false} SameSourcesStayOne(first: Entry, rest: seq<Entry>, source: string)
    requires FromOneSource(first, source) && forall i :: 0 <= i < |rest| ==> FromOneSource(rest[i], source)
    ensures FromOneSource(FoldLeft(Absorbed, first, rest), source)
    decreases |rest|
  {
    if rest != [] {
      var n := |rest| - 1;
      SameSourcesStayOne(first, rest[..n], source);
      assert rest == rest[..n] + [rest[n]];
      FoldSnoc(Absorbed, first, rest[..n], rest[n]);
      AbsorbedFromOneSource(FoldLeft(Absorbed, first, rest[..n]), rest[n], source);
    }
  }

  /** A record is stable exactly if all observations it was merged from share their source. */
  lemma {:induction false} StableIsOneSource(mine: seq<Entry>)
    requires mine != [] && forall i :: 0 <= i < |mine| ==> FromOneSource(mine[i], mine[i].core.source)
    ensures Stable(FoldLeft(Absorbed, mine[0], mine[1..])) <==> forall i :: 0 <= i < |mine| ==> mine[i].core.source == mine[0].core.source
  {
    var first, rest := mine[0], mine[1..];
    var r := FoldLeft(Absorbed, first, rest);
    if forall i :: 0 <= i < |mine| ==> mine[i].core.source == first.core.source {
      SameSourcesStayOne(first, rest, first.core.source);
    } else {
      var i :| 0 <= i < |mine| && mine[i].core.source != first.core.source;
      assert rest[i - 1] == mine[i];
      SourcesAreCollected(first, rest, first.core.source);
      SourcesAreCollected(first, rest, mine[i].core.source);
      assert first.core.source in first.sources;
      TwoSourcesAreNotOne(r.sources, first.core.source, mine[i].core.source, r.core.source);
    }
  }

  lemma {:induction false} TwoSourcesAreNotOne(sources: seq<string>, a: string, b: string, c: string)
    requires a in sources && b in sources && a != b
    ensures sources != [c]
  {
  }

  /** All valid observations of a device come from one source. */
  ghost predicate OneSourceEach(vs: seq<Entry>) {
    forall x, y :: x in vs && y in vs && Key(x) == Key(y) ==> x.core.source == y.core.source
  }

  lemma {:induction false} PlaceOfEntry(iso: string -> bool, es: seq<Entry>, i: nat)
    requires GoodEntries(iso, es) && i < |es|
    ensures Place(es, Key(es[i])) == i
  {
  }

  lemma {:induction false} EntryIsStableExactly(iso: string -> bool, now: string, rs: seq<Raw>, key: (string, string))
    requires Filter(IsOf(key), Valids(iso, now, rs)) != []
    ensures var es, mine := Merged(iso, now, rs), Filter(IsOf(key), Valids(iso, now, rs));
            && Place(es, key) < |es|
            && (Stable(es[Place(es, key)]) <==> forall x, y :: x in mine && y in mine ==> x.core.source == y.core.source)
  {
    var vs := Valids(iso, now, rs);
    var mine := Filter(IsOf(key), vs);
    OneEntryPerDevice(iso, now, rs, key);
    FilterMembers(IsOf(key), vs);
    forall i | 0 <= i < |mine|
      ensures FromOneSource(mine[i], mine[i].core.source)
    {
      assert mine[i] in mine;
      ValidsAreFromOneSource(iso, now, rs, mine[i]);
    }
    StableIsOneSource(mine);
    if forall i :: 0 <= i < |mine| ==> mine[i].core.source == mine[0].core.source {
      forall x, y | x in mine && y in mine
        ensures x.core.source == y.core.source
      {
        var i :| 0 <= i < |mine| && mine[i] == x;
        var j :| 0 <= j < |mine| && mine[j] == y;
      }
    } else {
      var i :| 0 <= i < |mine| && mine[i].core.source != mine[0].core.source;
      assert mine[i] in mine && mine[0] in mine;
    }
  }

  lemma {:induction false} OneSourceMakesStable(iso: string -> bool, now: string, rs: seq<Raw>, i: nat)
    requires iso(now) && OneSourceEach(Valids(iso, now, rs)) && i < |Merged(iso, now, rs)|
    ensures Stable(Merged(iso, now, rs)[i])
  {
    var es, vs := Merged(iso, now, rs), Valids(iso, now, rs);
    var key := Key(es[i]);
    MergedIsGood(iso, now, [], rs);
    PlaceOfEntry(iso, es, i);
    OneEntryPerDevice(iso, now, rs, key);
    FilterMembers(IsOf(key), vs);
    EntryIsStableExactly(iso, now, rs, key);
  }

  lemma {:induction false} TwoSourcesMakeUnstable(iso: string -> bool, now: string, rs: seq<Raw>, x: Entry, y: Entry)
    requires x in Valids(iso, now, rs) && y in Valids(iso, now, rs) && Key(x) == Key(y) && x.core.source != y.core.source
    ensures exists i :: 0 <= i < |Merged(iso, now, rs)| && !Stable(Merged(iso, now, rs)[i])
  {
    var vs := Valids(iso, now, rs);
    var mine := Filter(IsOf(Key(x)), vs);
    FilterMembers(IsOf(Key(x)), vs);
    assert IsOf(Key(x))(x) && IsOf(Key(x))(y);
    assert x in mine && y in mine;
    EntryIsStableExactly(iso, now, rs, Key(x));
  }

  /** Reading the merged list again changes nothing at all if and only if all valid observations of each device share one source. */
  lemma {:induction false} RestoringIsExactlyOneSource(iso: string -> bool, now: string, rs: seq<Raw>)
    requires iso(now)
    ensures Merged(iso, now, AsRaws(Merged(iso, now, rs))) == Merged(iso, now, rs) <==> OneSourceEach(Valids(iso, now, rs))
  {
    var es := Merged(iso, now, rs);
    MergedIsGood(iso, now, [], rs);
    RestoringIsExact(iso, now, es);
    if OneSourceEach(Valids(iso, now, rs)) {
      forall i | 0 <= i < |es|
        ensures Stable(es[i])
      {
        OneSourceMakesStable(iso, now, rs, i);
      }
    } else {
      var x, y :| x in Valids(iso, now, rs) && y in Valids(iso, now, rs) && Key(x) == Key(y) && x.core.source != y.core.source;
      TwoSourcesMakeUnstable(iso, now, rs, x, y);
    }
  }

  /** Two sightings of one device from different sources leave an entry that the next batch strips of one source. */
  lemma {:induction false} SecondSourceIsForgotten(iso: string -> bool, now: string, a: Raw, b: Raw)
    requires iso(now) && Normalised(iso, now, a).Some? && Normalised(iso, now, b).Some?
    requires Key(Normalised(iso, now, a).value) == Key(Normalised(iso, now, b).value) && a.source != b.source
    ensures |Merged(iso, now, [a, b])| == 1 && |Merged(iso, now, [a, b])[0].sources| == 2
    ensures Merged(iso, now, AsRaws(Merged(iso, now, [a, b]))) != Merged(iso, now, [a, b])
  {
    var x, y := Normalised(iso, now, a).value, Normalised(iso, now, b).value;
    MergedTwo(iso, now, a, b);
    NewIsAppended([], x);
    assert Upserted([x], y) == [Absorbed(x, y)];
    var es := Merged(iso, now, [a, b]);
    assert es == [Absorbed(x, y)];
    assert y.sources[1..] == [] && WithSources(x.sources, y.sources) == x.sources + [y.sources[0]];
    MergedIsGood(iso, now, [], [a, b]);
    assert !Stable(es[0]);
    RestoringIsExact(iso, now, es);
  }

  /** A client id learnt by DHCP is dropped with the next batch once the device was also seen, later, by ARP. */
  lemma {:induction false} DhcpFieldsAreForgotten(iso: string -> bool, now: string, a: Raw, b: Raw)
    requires iso(now) && Normalised(iso, now, a).Some? && Normalised(iso, now, b).Some?
    requires var x, y := Normalised(iso, now, a).value, Normalised(iso, now, b).value;
             Key(x) == Key(y) && x.dhcp.clientId.Some? && y.core.source == "arp" && StringLt(x.core.observedAt, y.core.observedAt)
    ensures var es := Merged(iso, now, [a, b]);
            && |es| == 1 && es[0].dhcp.clientId.Some?
            && Merged(iso, now, AsRaws(es)) == [Restore(es[0])] && Restore(es[0]).dhcp == NO_DHCP
  {
    var x, y := Normalised(iso, now, a).value, Normalised(iso, now, b).value;
    MergedTwo(iso, now, a, b);
    NewIsAppended([], x);
    assert Upserted([x], y) == [Absorbed(x, y)];
    var es := Merged(iso, now, [a, b]);
    assert es == [Absorbed(x, y)];
    MergedIsGood(iso, now, [], [a, b]);
    StoredListReadsBack(iso, now, es);
    assert Restored(es) == [Restore(es[0])];
  }
}
