/** The passive DHCP parser and the request builder whose packets it reads back. */
module Dhcp {
  import opened Prelude
  import opened Text
  import opened Wire

  // ---------------------------------------------------------------- options

  type Fields = map<Byte, Bytes>

  /** The option loop of `_parse_options` from index `i` on. */
  function OptionsFrom(o: Bytes, i: nat, m: Fields): Fields
    decreases |o| - i
  {
    if i >= |o| then m
    else if o[i] == 0 then OptionsFrom(o, i + 1, m)
    else if o[i] == 255 || i + 1 >= |o| then m
    else
      var end := i + 2 + o[i + 1] as int;
      if end > |o| then m else OptionsFrom(o, end, m[o[i] := o[i + 2..end]])
  }

  method ParseOptions(o: Bytes) returns (result: Fields)
    ensures result == OptionsFrom(o, 0, map[])
  {
    var index := 0;
    result := map[];
    while index < |o|
      invariant OptionsFrom(o, 0, map[]) == OptionsFrom(o, index, result)
      decreases |o| - index
    {
      var code := o[index];
      index := index + 1;
      if code == 0 {
        continue;
      }
      if code == 255 || index >= |o| {
        break;
      }
      var end := index + 1 + o[index] as int;
      if end > |o| {
        break;
      }
      result := result[code := o[index + 1..end]];
      index := end;
    }
  }

  /** What stands in an option field: pads, and options whose code is neither Pad nor End. */
  datatype Item = Pad | Opt(code: Byte, data: Bytes)

  predicate ValidItem(item: Item) {
    item.Opt? ==> item.code != 0 && item.code != 255 && |item.data| < 256
  }

  predicate ValidItems(items: seq<Item>) {
    items == [] || (ValidItem(items[0]) && ValidItems(items[1..]))
  }

  function PutItem(item: Item): (b: Bytes)
    requires ValidItem(item)
    ensures |b| > 0
  {
    match item case Pad => [0] case Opt(code, data) => [code, |data|] + data
  }

  function PutItems(items: seq<Item>): Bytes
    requires ValidItems(items)
  {
    if items == [] then [] else PutItem(items[0]) + PutItems(items[1..])
  }

  function Noted(m: Fields, item: Item): Fields {
    if item.Pad? then m else m[item.code := item.data]
  }

  /** The map in which a later option replaces an earlier one of its code. */
  function LastWins(m: Fields, items: seq<Item>): Fields
    decreases |items|
  {
    if items == [] then m else LastWins(Noted(m, items[0]), items[1..])
  }

  /** What the map says: the data of the last option with a code, if there is one. */
  lemma {:induction false} LastWinsMeaning(m: Fields, items: seq<Item>, code: Byte)
    ensures (forall i :: 0 <= i < |items| ==> items[i].Pad? || items[i].code != code) ==>
              (code in LastWins(m, items) <==> code in m) && (code in m ==> LastWins(m, items)[code] == m[code])
    ensures forall k :: 0 <= k < |items| && items[k].Opt? && items[k].code == code
                        && (forall j :: k < j < |items| ==> items[j].Pad? || items[j].code != code) ==>
              code in LastWins(m, items) && LastWins(m, items)[code] == items[k].data
    decreases |items|
  {
    if items != [] {
      LastWinsMeaning(Noted(m, items[0]), items[1..], code);
      forall k | 0 <= k < |items| && items[k].Opt? && items[k].code == code
                 && (forall j :: k < j < |items| ==> items[j].Pad? || items[j].code != code)
        ensures code in LastWins(m, items) && LastWins(m, items)[code] == items[k].data
      {
        if k > 0 {
          assert items[1..][k - 1] == items[k];
        }
      }
    }
  }

  lemma {:induction false} ItemReadsBack(o: Bytes, i: nat, m: Fields, item: Item)
    requires ValidItem(item) && HoldsAt(o, i, PutItem(item))
    ensures OptionsFrom(o, i, m) == OptionsFrom(o, i + |PutItem(item)|, Noted(m, item))
  {
    var part := o[i..i + |PutItem(item)|];
    assert part == PutItem(item) && part[0] == o[i];
    if item.Opt? {
      assert part[1] == o[i + 1];
      assert part[2..] == item.data && o[i + 2..i + 2 + |item.data|] == part[2..];
    }
  }

  /** Reading on from a place where an item is written notes it and goes on behind it. */
  ghost predicate NotesItems(read: (nat, Fields) -> Fields, o: Bytes) {
    forall i: nat, m, item :: ValidItem(item) && HoldsAt(o, i, PutItem(item)) ==> read(i, m) == read(i + |PutItem(item)|, Noted(m, item))
  }

  lemma {:induction false} ItemsAreNoted(read: (nat, Fields) -> Fields, o: Bytes, i: nat, end: nat, m: Fields, items: seq<Item>)
    requires NotesItems(read, o) && ValidItems(items) && HoldsAt(o, i, PutItems(items)) && end == i + |PutItems(items)|
    ensures read(i, m) == read(end, LastWins(m, items))
    decreases |items|
  {
    if items != [] {
      var item, rest := items[0], items[1..];
      var next := FirstIsThere(o, i, end, PutItem(item), PutItems(rest));
      ItemsAreNoted(read, o, next, end, Noted(m, item), rest);
    }
  }

  lemma {:induction false} FirstIsThere(o: Bytes, i: nat, end: nat, one: Bytes, more: Bytes) returns (next: nat)
    requires HoldsAt(o, i, one + more) && end == i + |one + more|
    ensures next == i + |one| && HoldsAt(o, i, one) && HoldsAt(o, next, more) && end == next + |more|
  {
    next := i + |one|;
    HoldsParts(o, i, one, more);
  }

  /** The loop over written items notes them one after the other. */
  lemma {:induction false} ItemsReadBack(o: Bytes, i: nat, end: nat, m: Fields, items: seq<Item>)
    requires ValidItems(items) && HoldsAt(o, i, PutItems(items)) && end == i + |PutItems(items)|
    ensures OptionsFrom(o, i, m) == OptionsFrom(o, end, LastWins(m, items))
  {
    var read := (i: nat, m: Fields) => OptionsFrom(o, i, m);
    forall i: nat, m, item | ValidItem(item) && HoldsAt(o, i, PutItem(item))
      ensures read(i, m) == read(i + |PutItem(item)|, Noted(m, item))
    {
      ItemReadsBack(o, i, m, item);
    }
    ItemsAreNoted(read, o, i, end, m, items);
  }

  /** Where the loop stops: at the end, at an End option, or at an option that is not there in full. */
  predicate Stops(rest: Bytes) {
    rest == [] || rest[0] == 255 || (rest[0] != 0 && (|rest| == 1 || 2 + rest[1] as int > |rest|))
  }

  lemma {:induction false} StoppedThere(o: Bytes, i: nat, m: Fields)
    requires i <= |o| && Stops(o[i..])
    ensures OptionsFrom(o, i, m) == m
  {
    if i < |o| {
      assert o[i..][0] == o[i];
      if i + 1 < |o| {
        assert o[i..][1] == o[i + 1];
      }
    }
  }

  /** Any option list, with pads anywhere and anything after the End or a torn option, yields its last-wins map. */
  lemma {:induction false} OptionsReadBack(items: seq<Item>, rest: Bytes)
    requires ValidItems(items) && Stops(rest)
    ensures OptionsFrom(PutItems(items) + rest, 0, map[]) == LastWins(map[], items)
  {
    var o, n := PutItems(items) + rest, |PutItems(items)|;
    assert o[0..n] == PutItems(items) && o[n..] == rest;
    ItemsReadBack(o, 0, n, map[], items);
    StoppedThere(o, n, LastWins(map[], items));
  }

  /** The items in a byte string, as far as they are there in full. */
  function ItemsOf(o: Bytes): (items: seq<Item>)
    ensures ValidItems(items)
    decreases |o|
  {
    if Stops(o) then []
    else if o[0] == 0 then [Pad] + ItemsOf(o[1..])
    else [Opt(o[0], o[2..2 + o[1] as int])] + ItemsOf(o[2 + o[1] as int..])
  }

  lemma {:induction false} FirstItem(o: Bytes)
    requires !Stops(o)
    ensures ItemsOf(o) != [] && |PutItem(ItemsOf(o)[0])| <= |o|
    ensures var one := PutItem(ItemsOf(o)[0]); o[..|one|] == one && ItemsOf(o)[1..] == ItemsOf(o[|one|..])
  {
    var items := ItemsOf(o);
    var one := PutItem(items[0]);
    if o[0] != 0 {
      var end := 2 + o[1] as int;
      assert o[2..end] == items[0].data;
      assert o[..end] == [o[0], o[1]] + o[2..end];
    }
    assert o[..|one|] == one;
  }

  /** What follows the items in a byte string. */
  function RestOf(o: Bytes): Bytes
    decreases |o|
  {
    if Stops(o) then o else if o[0] == 0 then RestOf(o[1..]) else RestOf(o[2 + o[1] as int..])
  }

  lemma {:induction false} Glued(o: Bytes, k: nat, one: Bytes, items: Bytes, rest: Bytes)
    requires k <= |o| && o[..k] == one && o[k..] == items + rest
    ensures o == (one + items) + rest
  {
    assert o == o[..k] + o[k..];
  }

  /** Every byte string is a list of items and a rest at which the loop stops. */
  lemma {:induction false} BytesAreItems(o: Bytes)
    ensures Stops(RestOf(o)) && o == PutItems(ItemsOf(o)) + RestOf(o)
    decreases |o|
  {
    if Stops(o) {
      assert [] + o == o;
    } else {
      FirstItem(o);
      var item, k := ItemsOf(o)[0], |PutItem(ItemsOf(o)[0])|;
      RestBehind(o, k);
      BytesAreItems(o[k..]);
      Glued(o, k, PutItem(item), PutItems(ItemsOf(o[k..])), RestOf(o[k..]));
    }
  }

  lemma {:induction false} RestBehind(o: Bytes, k: nat)
    requires !Stops(o) && ItemsOf(o) != [] && k == |PutItem(ItemsOf(o)[0])| && k <= |o|
    ensures RestOf(o) == RestOf(o[k..])
  {
  }

  /** So the parser's answer on any bytes at all is the last-wins map of the items in them. */
  lemma {:induction false} OptionsOfAnyBytes(o: Bytes)
    ensures OptionsFrom(o, 0, map[]) == LastWins(map[], ItemsOf(o))
  {
    BytesAreItems(o);
    OptionsReadBack(ItemsOf(o), RestOf(o));
  }

  /** How many of the items lie wholly in the first `n` bytes. */
  function Whole(items: seq<Item>, n: nat): (k: nat)
    requires ValidItems(items)
    ensures k <= |items|
  {
    if items == [] || |PutItem(items[0])| > n then 0 else 1 + Whole(items[1..], n - |PutItem(items[0])|)
  }

  lemma {:induction false} CutInsideStops(item: Item, n: nat)
    requires ValidItem(item) && n < |PutItem(item)|
    ensures Stops(PutItem(item)[..n])
  {
    var cut := PutItem(item)[..n];
    if n > 0 {
      assert cut[0] == PutItem(item)[0];
      if n > 1 {
        assert cut[1] == PutItem(item)[1];
      }
    }
  }

  lemma {:induction false} ItemInFront(item: Item, rest: Bytes)
    requires ValidItem(item)
    ensures ItemsOf(PutItem(item) + rest) == [item] + ItemsOf(rest)
  {
    var one := PutItem(item);
    var o := one + rest;
    assert o[0] == one[0] && o[|one|..] == rest;
    if item.Opt? {
      assert o[1] == one[1] && o[2..|one|] == one[2..] == item.data;
    }
  }

  lemma {:induction false} CutItems(items: seq<Item>, n: nat)
    requires ValidItems(items) && n <= |PutItems(items)|
    ensures ItemsOf(PutItems(items)[..n]) == items[..Whole(items, n)]
    decreases |items|
  {
    if items == [] {
      assert PutItems(items)[..n] == [];
    } else {
      var one, rest := PutItem(items[0]), PutItems(items[1..]);
      if |one| > n {
        CutInFirst(items[0], one, rest, n);
        NothingWhole(items, n);
      } else {
        CutItems(items[1..], n - |one|);
        CutInFront(items[0], one, rest, items[1..][..Whole(items[1..], n - |one|)], n);
        WholeBehind(items, n);
      }
    }
  }

  lemma {:induction false} CutInFirst(item: Item, one: Bytes, rest: Bytes, n: nat)
    requires ValidItem(item) && one == PutItem(item) && n < |one|
    ensures ItemsOf((one + rest)[..n]) == []
  {
    CutInside(one, rest, n);
    CutInsideStops(item, n);
  }

  lemma {:induction false} NothingWhole(items: seq<Item>, n: nat)
    requires ValidItems(items) && items != [] && |PutItem(items[0])| > n
    ensures items[..Whole(items, n)] == []
  {
  }

  lemma {:induction false} CutInFront(item: Item, one: Bytes, rest: Bytes, found: seq<Item>, n: nat)
    requires ValidItem(item) && one == PutItem(item) && |one| <= n <= |one| + |rest| && ItemsOf(rest[..n - |one|]) == found
    ensures ItemsOf((one + rest)[..n]) == [item] + found
  {
    CutBehind(one, rest, n);
    ItemInFront(item, rest[..n - |one|]);
  }

  lemma {:induction false} CutInside(one: Bytes, rest: Bytes, n: nat)
    requires n <= |one|
    ensures (one + rest)[..n] == one[..n]
  {
  }

  lemma {:induction false} CutBehind(one: Bytes, rest: Bytes, n: nat)
    requires |one| <= n <= |one| + |rest|
    ensures (one + rest)[..n] == one + rest[..n - |one|]
  {
  }

  lemma {:induction false} WholeBehind(items: seq<Item>, n: nat)
    requires ValidItems(items) && items != [] && |PutItem(items[0])| <= n
    ensures items[..Whole(items, n)] == [items[0]] + items[1..][..Whole(items[1..], n - |PutItem(items[0])|)]
  {
    var k := Whole(items[1..], n - |PutItem(items[0])|);
    assert Whole(items, n) == 1 + k;
    assert items[..1 + k] == [items[0]] + items[1..][..k];
  }

  /** A stream cut anywhere yields the map of the options wholly contained in what is left. */
  lemma {:induction false} TruncatedOptions(items: seq<Item>, n: nat)
    requires ValidItems(items) && n <= |PutItems(items)|
    ensures OptionsFrom(PutItems(items)[..n], 0, map[]) == LastWins(map[], items[..Whole(items, n)])
  {
    OptionsOfAnyBytes(PutItems(items)[..n]);
    CutItems(items, n);
  }

  // ---------------------------------------------------------------- the packet

  function HexDigit(d: nat): char
    requires d < 16
  {
    if d < 10 then (48 + d) as char else (55 + d) as char
  }

  function Hex(b: Byte): string { [HexDigit(b / 16), HexDigit(b % 16)] }

  /** Bytes in hexadecimal with colons between them, as MAC addresses and client ids are shown. */
  function Colons(b: Bytes): string { Join(Map(Hex, b), ':') }

  /** `_decode_str`: decoded, stripped of NULs and then of white space; None if nothing is left. */
  function Cleaned(decode: Bytes -> string, b: Bytes): Option<string> {
    var text := if b == [] then "" else Trim(IsSpace, Trim(IsNul, decode(b)));
    if text == "" then None else Some(text)
  }

  predicate IsNul(c: char) { c == '\0' }

  function Ipv4(b: Bytes): Option<string> {
    if |b| < 4 then None else Some(DottedQuad(b[..4]))
  }

  function Quads(b: Bytes): seq<string> {
    if |b| < 4 then [] else [DottedQuad(b[..4])] + Quads(b[4..])
  }

  /** The addresses of a list; none unless its length is a multiple of four. */
  function Ipv4List(b: Bytes): seq<string> { if |b| % 4 != 0 then [] else Quads(b) }

  method DecodeIpv4List(b: Bytes) returns (ips: seq<string>)
    ensures ips == Ipv4List(b)
  {
    ips := [];
    if |b| % 4 != 0 {
      return;
    }
    var i, k := 0, 0;
    while i < |b|
      invariant i == 4 * k && k <= |b| / 4
      invariant Quads(b) == ips + Quads(b[i..])
      decreases |b| - i
    {
      QuadsGrow(b, i, ips);
      ips := ips + [DottedQuad(b[i..i + 4])];
      i, k := i + 4, k + 1;
    }
    NoQuads(b, i, ips);
  }

  lemma {:induction false} QuadsGrow(b: Bytes, i: nat, ips: seq<string>)
    requires i + 4 <= |b| && Quads(b) == ips + Quads(b[i..])
    ensures Quads(b) == (ips + [DottedQuad(b[i..i + 4])]) + Quads(b[i + 4..])
  {
    QuadsStep(b, i);
    Associates(ips, [DottedQuad(b[i..i + 4])], Quads(b[i + 4..]));
  }

  lemma {:induction false} NoQuads(b: Bytes, i: nat, ips: seq<string>)
    requires i == |b| && Quads(b) == ips + Quads(b[i..])
    ensures Quads(b) == ips
  {
    assert b[i..] == [] && Quads(b[i..]) == [];
  }

  lemma {:induction false} QuadsStep(b: Bytes, i: nat)
    requires i + 4 <= |b|
    ensures Quads(b[i..]) == [DottedQuad(b[i..i + 4])] + Quads(b[i + 4..])
  {
    assert b[i..][..4] == b[i..i + 4] && b[i..][4..] == b[i + 4..];
  }

  /** The data of an option; an absent one and an empty one are treated alike everywhere. */
  function Field(m: Fields, code: Byte): Bytes { if code in m then m[code] else [] }

  const ZEROS: Bytes := [0, 0, 0, 0]
  const COOKIE: Bytes := [0x63, 0x82, 0x53, 0x63]

  datatype Raw = Raw(
    transaction: nat, subnetMask: Option<string>, routers: seq<string>, dnsServers: seq<string>,
    domainName: Option<string>, leaseTime: Option<nat>, server: Option<string>, broadcast: Option<string>)

  datatype Observation = Observation(
    mac: string, messageType: Option<Byte>, requestedIp: Option<string>, hostname: Option<string>,
    vendorClass: Option<string>, clientId: Option<string>, requests: Option<Bytes>, raw: Raw)

  function RawOf(decode: Bytes -> string, transaction: nat, m: Fields): Raw {
    Raw(transaction, Ipv4(Field(m, 1)), Ipv4List(Field(m, 3)), Ipv4List(Field(m, 6)), Cleaned(decode, Field(m, 15)),
        if |Field(m, 51)| < 4 then None else Some(BigEndian(Field(m, 51)[..4])),
        Ipv4(Field(m, 54)), Ipv4(Field(m, 28)))
  }

  /** The address asked for: option 50, else `ciaddr`, else `yiaddr`; a zero address counts as none. */
  function Requested(m: Fields, ciaddr: Bytes, yiaddr: Bytes): Option<string>
    requires |ciaddr| == 4 && |yiaddr| == 4
  {
    if Ipv4(Field(m, 50)).Some? then Ipv4(Field(m, 50))
    else if ciaddr != ZEROS then Some(DottedQuad(ciaddr))
    else if yiaddr != ZEROS then Some(DottedQuad(yiaddr))
    else None
  }

  function Observed(decode: Bytes -> string, mac: Bytes, ip: Option<string>, transaction: nat, m: Fields): Observation {
    Observation(Colons(mac), if Field(m, 53) == [] then None else Some(Field(m, 53)[0]), ip,
                Cleaned(decode, Field(m, 12)), Cleaned(decode, Field(m, 60)),
                if Field(m, 61) == [] then None else Some(Colons(Field(m, 61))),
                if Field(m, 55) == [] then None else Some(Field(m, 55)),
                RawOf(decode, transaction, m))
  }

  /** `parse_dhcp_packet`; `decode` stands for UTF-8 decoding that ignores errors. */
  function ParsePacket(decode: Bytes -> string, data: Bytes): Option<Observation> {
    if |data| < 240 || data[236..240] != COOKIE || data[2] < 6 || data[28] % 2 == 1 then None
    else
      var m := OptionsFrom(data[240..], 0, map[]);
      Some(Observed(decode, data[28..34], Requested(m, data[12..16], data[16..20]), BigEndian(data[4..8]), m))
  }

  // ---------------------------------------------------------------- the request builder

  predicate IsOctetText(s: string) { s != "" && (forall i :: 0 <= i < |s| ==> IsDigit(s[i])) && Number(s) < 256 }

  /** The numbers between the dots, however many there are; None where the source raises. */
  function IpBytes(ip: string): Option<Bytes> {
    var parts := Split(ip, '.');
    if forall i :: 0 <= i < |parts| ==> IsOctetText(parts[i])
    then Some(seq(|parts|, i requires 0 <= i < |parts| => Number(parts[i])))
    else None
  }

  function Zeros(n: nat): (b: Bytes)
    ensures |b| == n
  {
    seq(n, _ => 0)
  }

  function Maybe(code: Byte, data: Bytes): seq<Item> { if data == [] then [] else [Opt(code, data)] }

  function RequestItems(ip: Bytes, hostname: Bytes, vendor: Bytes, clientId: Bytes): seq<Item> {
    [Opt(53, [3]), Opt(50, ip)] + (Maybe(12, hostname) + (Maybe(60, vendor) + Maybe(61, clientId)))
  }

  const HEAD: Bytes := [1, 1, 6, 0] + ToBytes(0x3904A3B2, 4) + Zeros(20)

  /** `chaddr`, `sname`, `file` and the cookie behind the fixed head. */
  function Fixed(mac: Bytes): Bytes { HEAD + (mac + (Zeros(if |mac| < 16 then 16 - |mac| else 0) + (Zeros(192) + COOKIE))) }

  /** `build_dhcp_request`; None where it raises: an octet or a length that does not fit a byte. */
  function BuildRequest(mac: Bytes, ip: string, hostname: Bytes, vendor: Bytes, clientId: Bytes): Option<Bytes> {
    if IpBytes(ip).None? || |hostname| >= 256 || |vendor| >= 256 || |clientId| >= 256 then None
    else
      var address := IpBytes(ip).value;
      // The length byte of option 50 is the constant 4.
      var options := PutItem(Opt(53, [3])) + ([50, 4] + address)
                     + (PutMaybe(12, hostname) + (PutMaybe(60, vendor) + PutMaybe(61, clientId))) + [255];
      Some(Fixed(mac) + options)
  }

  function PutMaybe(code: Byte, data: Bytes): Bytes
    requires |data| < 256
  {
    if data == [] then [] else [code, |data|] + data
  }

  // ---------------------------------------------------------------- reading a request back

  lemma {:induction false} IpBytesOfDottedQuad(q: Bytes)
    requires |q| == 4
    ensures IpBytes(DottedQuad(q)) == Some(q)
  {
    var fields := [Decimal(q[0]), Decimal(q[1]), Decimal(q[2]), Decimal(q[3])];
    forall i | 0 <= i < 4
      ensures '.' !in fields[i] && IsOctetText(fields[i]) && Number(fields[i]) == q[i]
    {
      OctetTextOfDecimal(q[i]);
    }
    SplitOfJoin(fields, '.');
    var parts := Split(DottedQuad(q), '.');
    assert parts == fields && |parts| == 4;
    assert IpBytes(DottedQuad(q)).Some?;
    var read := IpBytes(DottedQuad(q)).value;
    assert |read| == 4 && forall i :: 0 <= i < 4 ==> read[i] == Number(parts[i]) == q[i];
    assert read == q;
  }

  lemma {:induction false} OctetTextOfDecimal(b: Byte)
    ensures IsOctetText(Decimal(b)) && Number(Decimal(b)) == b && '.' !in Decimal(b)
  {
    NumberOfDecimal(b);
    assert !IsDigit('.');
    assert forall i :: 0 <= i < |Decimal(b)| ==> Decimal(b)[i] in Decimal(b);
  }

  lemma {:induction false} PutItemsAppend(a: seq<Item>, b: seq<Item>)
    requires ValidItems(a) && ValidItems(b)
    ensures ValidItems(a + b) && PutItems(a + b) == PutItems(a) + PutItems(b)
  {
    if a == [] {
      assert a + b == b;
    } else {
      assert (a + b)[0] == a[0] && (a + b)[1..] == a[1..] + b;
      PutItemsAppend(a[1..], b);
      Associates(PutItem(a[0]), PutItems(a[1..]), PutItems(b));
    }
  }

  lemma {:induction false} PutMaybeItem(code: Byte, data: Bytes)
    requires |data| < 256 && code != 0 && code != 255
    ensures ValidItems(Maybe(code, data)) && PutItems(Maybe(code, data)) == PutMaybe(code, data)
  {
    if data != [] {
      assert Maybe(code, data)[1..] == [];
    }
  }

  lemma {:induction false} PutTwo(a: Item, b: Item)
    requires ValidItem(a) && ValidItem(b)
    ensures PutItems([a, b]) == PutItem(a) + PutItem(b)
  {
    assert [a, b][1..] == [b] && [b][1..] == [];
    assert PutItems([b]) == PutItem(b) + PutItems([]);
  }

  lemma {:induction false} PutRequestItems(ip: Bytes, hostname: Bytes, vendor: Bytes, clientId: Bytes)
    requires |ip| == 4 && |hostname| < 256 && |vendor| < 256 && |clientId| < 256
    ensures ValidItems(RequestItems(ip, hostname, vendor, clientId))
    ensures PutItems(RequestItems(ip, hostname, vendor, clientId))
         == PutItem(Opt(53, [3])) + ([50, 4] + ip) + (PutMaybe(12, hostname) + (PutMaybe(60, vendor) + PutMaybe(61, clientId)))
  {
    PutMaybeItem(12, hostname);
    PutMaybeItem(60, vendor);
    PutMaybeItem(61, clientId);
    PutItemsAppend(Maybe(60, vendor), Maybe(61, clientId));
    PutItemsAppend(Maybe(12, hostname), Maybe(60, vendor) + Maybe(61, clientId));
    var first := [Opt(53, [3]), Opt(50, ip)];
    PutTwo(first[0], first[1]);
    assert [50, 4] + ip == PutItem(first[1]);
    PutItemsAppend(first, Maybe(12, hostname) + (Maybe(60, vendor) + Maybe(61, clientId)));
  }

  lemma {:induction false} LastWinsAppend(m: Fields, a: seq<Item>, b: seq<Item>)
    ensures LastWins(m, a + b) == LastWins(LastWins(m, a), b)
    decreases |a|
  {
    if a == [] {
      assert a + b == b;
    } else {
      assert (a + b)[1..] == a[1..] + b;
      LastWinsAppend(Noted(m, a[0]), a[1..], b);
    }
  }

  function With(m: Fields, code: Byte, data: Bytes): Fields { if data == [] then m else m[code := data] }

  lemma {:induction false} LastWinsMaybe(m: Fields, code: Byte, data: Bytes)
    ensures LastWins(m, Maybe(code, data)) == With(m, code, data)
  {
    if data != [] {
      assert Maybe(code, data)[1..] == [];
    }
  }

  /** What the parser's map holds for a request. */
  lemma {:induction false} RequestFields(m: Fields, ip: Bytes, hostname: Bytes, vendor: Bytes, clientId: Bytes, code: Byte)
    requires m == LastWins(map[], RequestItems(ip, hostname, vendor, clientId))
    ensures Field(m, code) ==
            if code == 53 then [3] else if code == 50 then ip else if code == 12 then hostname
            else if code == 60 then vendor else if code == 61 then clientId else []
  {
    var first := [Opt(53, [3]), Opt(50, ip)];
    var m0: Fields := map[53 := [3], 50 := ip];
    assert first[1..] == [Opt(50, ip)] && first[1..][1..] == [];
    assert Noted(Noted(map[], first[0]), first[1]) == m0;
    assert LastWins(map[], first) == LastWins(Noted(map[], first[0]), [first[1]]) == LastWins(m0, []);
    LastWinsAppend(map[], first, Maybe(12, hostname) + (Maybe(60, vendor) + Maybe(61, clientId)));
    LastWinsAppend(m0, Maybe(12, hostname), Maybe(60, vendor) + Maybe(61, clientId));
    LastWinsMaybe(m0, 12, hostname);
    var m1 := With(m0, 12, hostname);
    LastWinsAppend(m1, Maybe(60, vendor), Maybe(61, clientId));
    LastWinsMaybe(m1, 60, vendor);
    LastWinsMaybe(With(m1, 60, vendor), 61, clientId);
  }

  /** The fixed part of a request, field by field. */
  lemma {:induction false} FixedFields(data: Bytes, mac: Bytes, options: Bytes)
    requires |mac| == 6 && HoldsAt(data, 0, Fixed(mac) + options)
    ensures HoldsAt(data, 0, HEAD) && HoldsAt(data, 28, mac) && HoldsAt(data, 236, COOKIE) && HoldsAt(data, 240, options)
  {
    HoldsThen(data, 0, Fixed(mac), options, 240);
    HoldsThen(data, 0, HEAD, mac + (Zeros(10) + (Zeros(192) + COOKIE)), 28);
    HoldsThen(data, 28, mac, Zeros(10) + (Zeros(192) + COOKIE), 34);
    HoldsThen(data, 34, Zeros(10), Zeros(192) + COOKIE, 44);
    HoldsThen(data, 44, Zeros(192), COOKIE, 236);
  }

  lemma {:induction false} HeadFields(data: Bytes)
    requires HoldsAt(data, 0, HEAD)
    ensures data[2] == 6 && data[4..8] == ToBytes(0x3904A3B2, 4) && data[12..16] == ZEROS && data[16..20] == ZEROS
  {
    var head := data[0..28];
    assert head == HEAD && head[2] == data[2];
    assert data[4..8] == head[4..8] == ToBytes(0x3904A3B2, 4);
    assert data[12..16] == head[12..16] && data[16..20] == head[16..20];
    assert head[12..16] == ZEROS && head[16..20] == ZEROS;
  }

  /**
   * A built request parses to what was put into it: message type 3, the MAC, the requested address, the client
   * id and the cleaned strings; an empty string is left out and read as None. A multicast MAC is rejected.
   */
  lemma {:induction false} RequestReadsBack(decode: Bytes -> string, mac: Bytes, q: Bytes, hostname: Bytes, vendor: Bytes, clientId: Bytes)
    requires |mac| == 6 && |q| == 4 && |hostname| < 256 && |vendor| < 256 && |clientId| < 256
    ensures BuildRequest(mac, DottedQuad(q), hostname, vendor, clientId).Some?
    ensures ParsePacket(decode, BuildRequest(mac, DottedQuad(q), hostname, vendor, clientId).value)
         == if mac[0] % 2 == 1 then None
            else Some(Observation(
                        Colons(mac), Some(3), Some(DottedQuad(q)), Cleaned(decode, hostname), Cleaned(decode, vendor),
                        if clientId == [] then None else Some(Colons(clientId)), None,
                        Raw(0x3904A3B2, None, [], [], None, None, None, None)))
  {
    IpBytesOfDottedQuad(q);
    var items := RequestItems(q, hostname, vendor, clientId);
    PutRequestItems(q, hostname, vendor, clientId);
    var options := PutItems(items) + [255];
    var data := Fixed(mac) + options;
    assert BuildRequest(mac, DottedQuad(q), hostname, vendor, clientId) == Some(data);
    assert data[0..|data|] == data;
    FixedFields(data, mac, options);
    HeadFields(data);
    assert data[240..] == options && data[236..240] == COOKIE && data[28..34] == mac;
    assert data[28] == data[28..34][0];
    OptionsReadBack(items, [255]);
    if mac[0] % 2 == 0 {
      var m := OptionsFrom(options, 0, map[]);
      ObservedRequest(decode, mac, m, q, hostname, vendor, clientId, data[4..8]);
    }
  }

  lemma {:induction false} ObservedRequest(decode: Bytes -> string, mac: Bytes, m: Fields, q: Bytes, hostname: Bytes, vendor: Bytes, clientId: Bytes, xid: Bytes)
    requires |q| == 4 && xid == ToBytes(0x3904A3B2, 4)
    requires m == LastWins(map[], RequestItems(q, hostname, vendor, clientId))
    ensures Observed(decode, mac, Requested(m, ZEROS, ZEROS), BigEndian(xid), m)
         == Observation(
              Colons(mac), Some(3), Some(DottedQuad(q)), Cleaned(decode, hostname), Cleaned(decode, vendor),
              if clientId == [] then None else Some(Colons(clientId)), None,
              Raw(0x3904A3B2, None, [], [], None, None, None, None))
  {
    RequestFields(m, q, hostname, vendor, clientId, 53);
    RequestFields(m, q, hostname, vendor, clientId, 50);
    RequestFields(m, q, hostname, vendor, clientId, 12);
    RequestFields(m, q, hostname, vendor, clientId, 60);
    RequestFields(m, q, hostname, vendor, clientId, 61);
    RequestFields(m, q, hostname, vendor, clientId, 55);
    assert q[..4] == q;
    RawOfRequest(decode, m, q, hostname, vendor, clientId, xid);
  }

  lemma {:induction false} RawOfRequest(decode: Bytes -> string, m: Fields, q: Bytes, hostname: Bytes, vendor: Bytes, clientId: Bytes, xid: Bytes)
    requires xid == ToBytes(0x3904A3B2, 4) && m == LastWins(map[], RequestItems(q, hostname, vendor, clientId))
    ensures RawOf(decode, BigEndian(xid), m) == Raw(0x3904A3B2, None, [], [], None, None, None, None)
  {
    RequestFields(m, q, hostname, vendor, clientId, 1);
    RequestFields(m, q, hostname, vendor, clientId, 3);
    RequestFields(m, q, hostname, vendor, clientId, 6);
    RequestFields(m, q, hostname, vendor, clientId, 15);
    RequestFields(m, q, hostname, vendor, clientId, 28);
    RequestFields(m, q, hostname, vendor, clientId, 51);
    RequestFields(m, q, hostname, vendor, clientId, 54);
    XidFits();
    BigEndianOfToBytes(0x3904A3B2, 4);
  }

  lemma {:induction false} XidFits()
    ensures 0x3904A3B2 < Power256(4)
  {
  }

  // ---------------------------------------------------------------- reading any configuration

  /** The data of the last option of that code, none counting as empty. */
  function LastData(items: seq<Item>, code: Byte): Bytes {
    if items == [] then []
    else
      var last := items[|items| - 1];
      if last.Opt? && last.code == code then last.data else LastData(items[..|items| - 1], code)
  }

  lemma {:induction false} FieldIsLastData(items: seq<Item>, code: Byte)
    ensures Field(LastWins(map[], items), code) == LastData(items, code)
  {
    if items != [] {
      var n := |items| - 1;
      assert items == items[..n] + [items[n]] && [items[n]][1..] == [];
      LastWinsAppend(map[], items[..n], [items[n]]);
      FieldIsLastData(items[..n], code);
    }
  }

  /** The options of sections 3 and 9 of RFC 2132 that the parser reports. */
  datatype Offer = Offer(mask: Bytes, routers: Bytes, dns: Bytes, hostname: Bytes, domain: Bytes, broadcast: Bytes, requested: Bytes,
                         lease: Bytes, kind: Bytes, server: Bytes, requests: Bytes, vendor: Bytes, clientId: Bytes)

  function OfferIn(items: seq<Item>): Offer {
    Offer(LastData(items, 1), LastData(items, 3), LastData(items, 6), LastData(items, 12), LastData(items, 15), LastData(items, 28),
          LastData(items, 50), LastData(items, 51), LastData(items, 53), LastData(items, 54), LastData(items, 55),
          LastData(items, 60), LastData(items, 61))
  }

  /** What a packet with these options and header fields tells. */
  function OfferTells(decode: Bytes -> string, mac: Bytes, ciaddr: Bytes, yiaddr: Bytes, xid: Bytes, o: Offer): Observation
    requires |ciaddr| == 4 && |yiaddr| == 4
  {
    var ip :=
      if Ipv4(o.requested).Some? then Ipv4(o.requested)
      else if ciaddr != ZEROS then Some(DottedQuad(ciaddr))
      else if yiaddr != ZEROS then Some(DottedQuad(yiaddr)) else None;
    Observation(
      Colons(mac), if o.kind == [] then None else Some(o.kind[0]), ip, Cleaned(decode, o.hostname), Cleaned(decode, o.vendor),
      if o.clientId == [] then None else Some(Colons(o.clientId)), if o.requests == [] then None else Some(o.requests),
      Raw(BigEndian(xid), Ipv4(o.mask), Ipv4List(o.routers), Ipv4List(o.dns), Cleaned(decode, o.domain),
          if |o.lease| < 4 then None else Some(BigEndian(o.lease[..4])), Ipv4(o.server), Ipv4(o.broadcast)))
  }

  /** The header of section 2 of RFC 2131 as the parser reads it: hardware address length, addresses, transaction, cookie. */
  predicate HeaderIs(data: Bytes, mac: Bytes, ciaddr: Bytes, yiaddr: Bytes, xid: Bytes) {
    && |data| >= 240 && data[2] >= 6 && data[236..240] == COOKIE
    && data[4..8] == xid && data[12..16] == ciaddr && data[16..20] == yiaddr && data[28..34] == mac
  }

  lemma {:induction false} OfferFields(items: seq<Item>, m: Fields)
    requires m == LastWins(map[], items)
    ensures OfferIn(items) == Offer(Field(m, 1), Field(m, 3), Field(m, 6), Field(m, 12), Field(m, 15), Field(m, 28), Field(m, 50),
                                    Field(m, 51), Field(m, 53), Field(m, 54), Field(m, 55), Field(m, 60), Field(m, 61))
  {
    forall code: Byte
      ensures Field(m, code) == LastData(items, code)
    {
      FieldIsLastData(items, code);
    }
  }

  /**
   * Any packet with a full header, whatever its options, their order, codes and repetitions, and whatever follows
   * the End or a torn option: a unicast client is observed with every field from its own header place and the last
   * option of its code, a multicast one not at all.
   */
  lemma {:induction false} OfferReadsBack(decode: Bytes -> string, data: Bytes, mac: Bytes, ciaddr: Bytes, yiaddr: Bytes, xid: Bytes,
                                          items: seq<Item>, rest: Bytes)
    requires HeaderIs(data, mac, ciaddr, yiaddr, xid) && ValidItems(items) && Stops(rest) && data[240..] == PutItems(items) + rest
    ensures ParsePacket(decode, data)
         == if mac[0] % 2 == 1 then None else Some(OfferTells(decode, mac, ciaddr, yiaddr, xid, OfferIn(items)))
  {
    assert data[28] == data[28..34][0];
    OptionsReadBack(items, rest);
    OfferFields(items, OptionsFrom(data[240..], 0, map[]));
  }

  // ---------------------------------------------------------------- what the texts tell

  lemma {:induction false} HexInjective(a: Byte, b: Byte)
    requires Hex(a) == Hex(b)
    ensures a == b
  {
    assert Hex(a)[0] == Hex(b)[0] && Hex(a)[1] == Hex(b)[1];
    assert a == 16 * (a / 16) + a % 16 && b == 16 * (b / 16) + b % 16;
  }

  /** The value of an upper-case hexadecimal digit. */
  function HexValue(c: char): int {
    if '0' <= c <= '9' then c as int - '0' as int else if 'A' <= c <= 'F' then 10 + (c as int - 'A' as int) else -1
  }

  lemma {:induction false} HexTells(b: Byte)
    ensures |Hex(b)| == 2 && 0 <= HexValue(Hex(b)[0]) && 0 <= HexValue(Hex(b)[1]) && 16 * HexValue(Hex(b)[0]) + HexValue(Hex(b)[1]) == b as int
  {
    assert b as int == 16 * (b as int / 16) + b as int % 16;
  }

  lemma {:induction false} JoinedPairs(pairs: seq<string>, i: nat)
    requires i < |pairs| && forall k :: 0 <= k < |pairs| ==> |pairs[k]| == 2
    ensures var text := Join(pairs, ':');
            && |text| == 3 * |pairs| - 1 && text[3 * i] == pairs[i][0] && text[3 * i + 1] == pairs[i][1]
            && (i < |pairs| - 1 ==> text[3 * i + 2] == ':')
  {
    if |pairs| > 1 {
      var rest := Join(pairs[1..], ':');
      var text := Join(pairs, ':');
      JoinedPairs(pairs[1..], if i > 0 then i - 1 else 0);
      assert text == pairs[0] + [':'] + rest;
      if i > 0 {
        assert text[3 * i] == rest[3 * (i - 1)] && text[3 * i + 1] == rest[3 * (i - 1) + 1];
        assert i < |pairs| - 1 ==> text[3 * i + 2] == rest[3 * (i - 1) + 2];
      }
    }
  }

  /** A byte is shown by two digits, the higher one first, and a colon follows unless it is the last. */
  lemma {:induction false} ColonsTell(b: Bytes, i: nat)
    requires i < |b|
    ensures var text := Colons(b);
            && |text| == 3 * |b| - 1 && 0 <= HexValue(text[3 * i]) && 0 <= HexValue(text[3 * i + 1])
            && 16 * HexValue(text[3 * i]) + HexValue(text[3 * i + 1]) == b[i] as int
            && (i < |b| - 1 ==> text[3 * i + 2] == ':')
  {
    JoinedPairs(Map(Hex, b), i);
    HexTells(b[i]);
  }

  /** MAC addresses and client ids are told apart by their text. */
  lemma {:induction false} ColonsInjective(a: Bytes, b: Bytes)
    requires Colons(a) == Colons(b)
    ensures a == b
  {
    ColonsSplit(a);
    ColonsSplit(b);
    assert a == [] <==> b == [];
    var ha, hb := Map(Hex, a), Map(Hex, b);
    assert |a| == |b|;
    forall i | 0 <= i < |a|
      ensures a[i] == b[i]
    {
      assert ha[i] == hb[i];
      HexInjective(a[i], b[i]);
    }
  }

  lemma {:induction false} ColonsSplit(a: Bytes)
    ensures Colons(a) == "" <==> a == []
    ensures a != [] ==> Split(Colons(a), ':') == Map(Hex, a)
  {
    if a != [] {
      var fields := Map(Hex, a);
      assert |fields[0]| == 2;
      forall f | f in fields
        ensures ':' !in f
      {
      }
      SplitOfJoin(fields, ':');
    }
  }

  /** A cleaned text has no white space at its ends, and cleaning a clean text again changes nothing. */
  lemma {:induction false} CleanedIsClean(decode: Bytes -> string, b: Bytes)
    ensures Cleaned(decode, b).Some? ==> Cleaned(decode, b).value != "" && Trimmed(IsSpace, Cleaned(decode, b).value)
    ensures b != [] && decode(b) != "" && Trimmed(IsSpace, decode(b)) && Trimmed(IsNul, decode(b)) ==>
              Cleaned(decode, b) == Some(decode(b))
  {
    if b != [] {
      TrimIsTrimmed(IsSpace, Trim(IsNul, decode(b)));
      if Trimmed(IsSpace, decode(b)) && Trimmed(IsNul, decode(b)) {
        TrimOfTrimmed(IsNul, decode(b));
        TrimOfTrimmed(IsSpace, decode(b));
      }
    }
  }
}
