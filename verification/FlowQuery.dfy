/** Bounded on-demand queries over the stores of the days a window touches. */
module FlowQueryModel {
  import opened Prelude
  import opened Text
  import opened Store = RotatingStoreModel

  /** A stored flow as the query sees it; `lastSeen` is None when its text is no timestamp. */
  datatype Item =
    | Flow(srcMac: string, dstMac: string, lastSeen: Option<int>, firstSeen: string, flowId: string)
    | Junk

  datatype QueryError = BadMac | BadWindow | BadLimit | TooMany

  type Day = int

  /** One day in microseconds since the epoch. */
  const DAY: int := 86_400_000_000

  function DayOf(t: int): Day { t / DAY }

  // ---------------------------------------------------------------- MAC texts

  predicate IsMacSeparator(c: char) { c == ':' || c == '-' }

  predicate IsHex(c: char) { IsDigit(c) || 'A' <= c <= 'F' }

  function Pairs(s: string): string
    decreases |s|
  {
    if |s| <= 2 then s else s[..2] + ":" + Pairs(s[2..])
  }

  /** `normalize_mac`, None where it raises. */
  function NormalizeMac(mac: string): Option<string> {
    var compact := Upper(Filter((c: char) => !IsMacSeparator(c), mac));
    if |compact| == 12 && forall i :: 0 <= i < 12 ==> IsHex(compact[i]) then Some(Pairs(compact)) else None
  }

  predicate IsAnyHex(c: char) { '0' <= c <= '9' || 'a' <= c <= 'f' || 'A' <= c <= 'F' }

  /** `text` is the twelve digits in upper case, in pairs with colons between them. */
  predicate IsPairText(digits: string, text: string)
    requires |digits| == 12
  {
    |text| == 17 && forall i :: 0 <= i < 6 ==>
      && text[3 * i] == UpperChar(digits[2 * i]) && text[3 * i + 1] == UpperChar(digits[2 * i + 1])
      && (i < 5 ==> text[3 * i + 2] == ':')
  }

  lemma {:induction false} PairsShape(s: string, k: nat)
    requires |s| == 2 * k && k > 0
    ensures |Pairs(s)| == 3 * k - 1
    ensures forall i :: 0 <= i < k ==> Pairs(s)[3 * i] == s[2 * i] && Pairs(s)[3 * i + 1] == s[2 * i + 1] && (i < k - 1 ==> Pairs(s)[3 * i + 2] == ':')
  {
    if k > 1 {
      PairsShape(s[2..], k - 1);
      var rest := Pairs(s[2..]);
      assert Pairs(s) == s[..2] + ":" + rest;
      forall i | 0 <= i < k
        ensures Pairs(s)[3 * i] == s[2 * i] && Pairs(s)[3 * i + 1] == s[2 * i + 1] && (i < k - 1 ==> Pairs(s)[3 * i + 2] == ':')
      {
        if i > 0 {
          assert Pairs(s)[3 * i] == rest[3 * (i - 1)] && Pairs(s)[3 * i + 1] == rest[3 * (i - 1) + 1];
          assert i < k - 1 ==> Pairs(s)[3 * i + 2] == rest[3 * (i - 1) + 2];
        }
      }
    }
  }

  /**
   A device text is accepted exactly if twelve hexadecimal digits of any case are left without its colons and dashes,
   and stands for them in pairs with colons between them.
   */
  lemma {:induction false} NormalizeMacExactly(mac: string)
    ensures var digits := Filter((c: char) => c != ':' && c != '-', mac);
            && (NormalizeMac(mac).Some? <==> |digits| == 12 && forall i :: 0 <= i < 12 ==> IsAnyHex(digits[i]))
            && (NormalizeMac(mac).Some? ==> IsPairText(digits, NormalizeMac(mac).value))
  {
    var digits := Filter((c: char) => c != ':' && c != '-', mac);
    SameFilter((c: char) => !IsMacSeparator(c), (c: char) => c != ':' && c != '-', mac);
    var compact := Upper(digits);
    assert forall i :: 0 <= i < |digits| ==> compact[i] == UpperChar(digits[i]) && (IsHex(compact[i]) <==> IsAnyHex(digits[i]));
    if |digits| == 12 {
      PairsShape(compact, 6);
    }
  }

  lemma {:induction false} SameFilter<T>(p: T -> bool, q: T -> bool, s: seq<T>)
    requires forall x :: p(x) <==> q(x)
    ensures Filter(p, s) == Filter(q, s)
  {
    if s != [] {
      SameFilter(p, q, s[1..]);
    }
  }

  /** Stored addresses match without regard to case and with dashes for colons. */
  lemma {:induction false} ParticipantTells(a: string, b: string)
    ensures ParticipantMac(a) == ParticipantMac(b) <==>
            |a| == |b| && forall i :: 0 <= i < |a| ==>
              LowerChar(a[i]) == LowerChar(b[i]) || (a[i] in ":-" && b[i] in ":-")
  {
    var x, y := ParticipantMac(a), ParticipantMac(b);
    assert forall i :: 0 <= i < |a| ==> x[i] == LowerChar(ColonsForDashes(a)[i]) && ColonsForDashes(a)[i] == if a[i] == '-' then ':' else a[i];
    assert forall i :: 0 <= i < |b| ==> y[i] == LowerChar(ColonsForDashes(b)[i]) && ColonsForDashes(b)[i] == if b[i] == '-' then ':' else b[i];
  }

  function ColonsForDashes(s: string): string { Map((c: char) => if c == '-' then ':' else c, s) }

  function ParticipantMac(mac: string): string { Lower(ColonsForDashes(mac)) }

  // ---------------------------------------------------------------- what matches

  predicate Matches(mac: string, start: int, end: int, f: Item) {
    && f.Flow?
    && (ParticipantMac(f.srcMac) == mac || ParticipantMac(f.dstMac) == mac)
    && f.lastSeen.Some? && start <= f.lastSeen.value < end
  }

  function Matching(mac: string, start: int, end: int, items: seq<Item>): seq<Item> {
    Filter((f: Item) => Matches(mac, start, end, f), items)
  }

  function LogOf(days: map<Day, Files<Item>>, d: Day): seq<Item> {
    if d in days then Log(days[d]) else []
  }

  /** Everything stored for the days `first` to `last`, in order. */
  function Stored(days: map<Day, Files<Item>>, first: Day, last: Day): seq<Item>
    decreases last - first
  {
    if first > last then [] else Stored(days, first, last - 1) + LogOf(days, last)
  }

  // ---------------------------------------------------------------- sorting

  /** Comparison of the sort keys (first_seen, flow_id). */
  predicate KeyLe(a: Item, b: Item) {
    if a.Junk? || b.Junk? then true
    else StringLt(a.firstSeen, b.firstSeen) || (a.firstSeen == b.firstSeen && StringLe(a.flowId, b.flowId))
  }

  lemma {:induction false} KeyLeTotal(a: Item, b: Item)
    ensures KeyLe(a, b) || KeyLe(b, a)
  {
    if a.Flow? && b.Flow? {
      StringLeTotal(a.firstSeen, b.firstSeen);
      StringLeTotal(a.flowId, b.flowId);
    }
  }

  lemma {:induction false} KeyLeTransitive(a: Item, b: Item, c: Item)
    requires a.Flow? && b.Flow? && c.Flow? && KeyLe(a, b) && KeyLe(b, c)
    ensures KeyLe(a, c)
  {
    if a.firstSeen == b.firstSeen && b.firstSeen == c.firstSeen {
      StringLeTransitive(a.flowId, b.flowId, c.flowId);
    } else {
      if a.firstSeen == c.firstSeen {
        StringLeAntisymmetric(a.firstSeen, b.firstSeen);
      }
      if a.firstSeen != b.firstSeen && b.firstSeen != c.firstSeen {
        StringLeTransitive(a.firstSeen, b.firstSeen, c.firstSeen);
      }
    }
  }

  ghost predicate Sorted(s: seq<Item>) {
    forall i, j :: 0 <= i < j < |s| ==> KeyLe(s[i], s[j])
  }

  ghost predicate AllFlows(s: seq<Item>) {
    forall x :: x in s ==> x.Flow?
  }

  /** Equal sort keys. */
  predicate SameKey(a: Item, b: Item) {
    a.Flow? && b.Flow? && a.firstSeen == b.firstSeen && a.flowId == b.flowId
  }

  /** `x` placed after the elements that are not greater. */
  function Inserted(s: seq<Item>, x: Item): seq<Item> {
    if s == [] || KeyLe(s[|s| - 1], x) then s + [x] else Inserted(s[..|s| - 1], x) + [s[|s| - 1]]
  }

  function StableSort(s: seq<Item>): seq<Item> {
    if s == [] then [] else Inserted(StableSort(s[..|s| - 1]), s[|s| - 1])
  }

  /** The elements with the sort key of `k`, in order. */
  function WithKey(k: Item, s: seq<Item>): seq<Item> { Filter((y: Item) => SameKey(y, k), s) }

  lemma {:induction false} WithKeySnoc(k: Item, s: seq<Item>, x: Item)
    ensures WithKey(k, s + [x]) == if SameKey(x, k) then WithKey(k, s) + [x] else WithKey(k, s)
  {
    FilterSnoc((y: Item) => SameKey(y, k), s, x);
  }

  lemma {:induction false} InsertedPermutes(s: seq<Item>, x: Item)
    ensures multiset(Inserted(s, x)) == multiset(s) + multiset{x}
    ensures forall y :: y in Inserted(s, x) <==> y in s || y == x
  {
    if s != [] && !KeyLe(s[|s| - 1], x) {
      InsertedPermutes(s[..|s| - 1], x);
      assert s == s[..|s| - 1] + [s[|s| - 1]];
    }
  }

  lemma {:induction false} LastIsGreatest(s: seq<Item>, x: Item, i: nat)
    requires Sorted(s) && AllFlows(s) && x.Flow? && i < |s| && KeyLe(s[|s| - 1], x)
    ensures KeyLe(s[i], x)
  {
    assert s[i] in s && s[|s| - 1] in s;
    if i < |s| - 1 {
      KeyLeTransitive(s[i], s[|s| - 1], x);
    }
  }

  lemma {:induction false} SortedSnoc(s: seq<Item>, last: Item)
    requires Sorted(s) && forall y :: y in s ==> KeyLe(y, last)
    ensures Sorted(s + [last])
  {
    forall i | 0 <= i < |s|
      ensures KeyLe(s[i], last)
    {
      assert s[i] in s;
    }
  }

  lemma {:induction false} InsertedIsSorted(s: seq<Item>, x: Item)
    requires Sorted(s) && AllFlows(s) && x.Flow?
    ensures Sorted(Inserted(s, x)) && AllFlows(Inserted(s, x))
  {
    InsertedPermutes(s, x);
    if s == [] || KeyLe(s[|s| - 1], x) {
      forall i | 0 <= i < |s|
        ensures KeyLe(s[i], x)
      {
        LastIsGreatest(s, x, i);
      }
    } else {
      var n := |s| - 1;
      InsertedPermutes(s[..n], x);
      InsertedIsSorted(s[..n], x);
      KeyLeTotal(s[n], x);
      SortedSnoc(Inserted(s[..n], x), s[n]);
    }
  }

  lemma {:induction false} InsertedIsStable(s: seq<Item>, x: Item, k: Item)
    requires AllFlows(s) && x.Flow?
    ensures WithKey(k, Inserted(s, x)) == WithKey(k, s + [x])
  {
    if s != [] && !KeyLe(s[|s| - 1], x) {
      var front, last := s[..|s| - 1], s[|s| - 1];
      assert s == front + [last] && last in s;
      assert forall y :: y in front ==> y in s;
      InsertedIsStable(front, x, k);
      WithKeySnoc(k, Inserted(front, x), last);
      WithKeySnoc(k, front, x);
      WithKeySnoc(k, front, last);
      WithKeySnoc(k, s, x);
      StringLeReflexive(last.flowId);
    }
  }

  /** Sorting keeps the elements and orders them. */
  lemma {:induction false} StableSortSorts(s: seq<Item>)
    requires AllFlows(s)
    ensures Sorted(StableSort(s)) && AllFlows(StableSort(s)) && multiset(StableSort(s)) == multiset(s)
    decreases |s|
  {
    if s != [] {
      var n := |s| - 1;
      assert s == s[..n] + [s[n]] && s[n] in s;
      assert forall y :: y in s[..n] ==> y in s;
      StableSortSorts(s[..n]);
      InsertedIsSorted(StableSort(s[..n]), s[n]);
      InsertedPermutes(StableSort(s[..n]), s[n]);
    }
  }

  /** Flows with equal sort keys keep the order in which they were stored. */
  lemma {:induction false} StableSortIsStable(s: seq<Item>, k: Item)
    requires AllFlows(s)
    ensures WithKey(k, StableSort(s)) == WithKey(k, s)
    decreases |s|
  {
    if s != [] {
      var n := |s| - 1;
      assert s == s[..n] + [s[n]] && s[n] in s;
      assert forall y :: y in s[..n] ==> y in s;
      StableSortIsStable(s[..n], k);
      StableSortSorts(s[..n]);
      InsertedIsStable(StableSort(s[..n]), s[n], k);
      WithKeySnoc(k, StableSort(s[..n]), s[n]);
      WithKeySnoc(k, s[..n], s[n]);
    }
  }

  method SortMatched(s: seq<Item>) returns (r: seq<Item>)
    ensures r == StableSort(s)
  {
    r := [];
    for i := 0 to |s|
      invariant r == StableSort(s[..i])
    {
      assert s[..i + 1][..i] == s[..i];
      r := Inserted(r, s[i]);
    }
    assert s[..|s|] == s;
  }

  // ---------------------------------------------------------------- the query

  /** `query_flows`; `window` is the parsed window text, None where parsing it raises. */
  function Answer(days: map<Day, Files<Item>>, deviceMac: string, window: Option<(int, int)>, maxResults: int)
    : Result<seq<Item>, QueryError>
  {
    var mac := NormalizeMac(deviceMac);
    if mac.None? then Err(BadMac)
    else if window.None? || window.value.1 <= window.value.0 then Err(BadWindow)
    else if maxResults <= 0 then Err(BadLimit)
    else
      var (start, end) := window.value;
      var matched := Matching(Lower(mac.value), start, end, Stored(days, DayOf(start), DayOf(end)));
      if |matched| > maxResults then Err(TooMany) else Ok(StableSort(matched))
  }

  lemma {:induction false} StoredGrows(days: map<Day, Files<Item>>, first: Day, d: Day, last: Day)
    requires d <= last
    ensures Stored(days, first, d) <= Stored(days, first, last)
    decreases last - d
  {
    if d < last {
      StoredGrows(days, first, d, last - 1);
    }
  }

  lemma {:induction false} MatchingPrefix(mac: string, start: int, end: int, a: seq<Item>, b: seq<Item>)
    requires a <= b
    ensures |Matching(mac, start, end, a)| <= |Matching(mac, start, end, b)|
  {
    assert b == a + b[|a|..];
    FilterAppend((f: Item) => Matches(mac, start, end, f), a, b[|a|..]);
  }

  lemma {:induction false} MatchingSnoc(mac: string, start: int, end: int, s: seq<Item>, x: Item)
    ensures Matching(mac, start, end, s + [x]) ==
            if Matches(mac, start, end, x) then Matching(mac, start, end, s) + [x] else Matching(mac, start, end, s)
  {
    FilterSnoc((f: Item) => Matches(mac, start, end, f), s, x);
  }

  /** The inner loop of the query: the matching records of one day, unless the limit is passed. */
  method CollectDay(mac: string, start: int, end: int, maxResults: int, earlier: seq<Item>, ghost before: seq<Item>, records: seq<Item>)
    returns (matched: seq<Item>, tooMany: bool)
    requires earlier == Matching(mac, start, end, before) && |earlier| <= maxResults
    ensures tooMany <==> |Matching(mac, start, end, before + records)| > maxResults
    ensures !tooMany ==> matched == Matching(mac, start, end, before + records)
  {
    matched := earlier;
    assert before + records[..0] == before;
    for i := 0 to |records|
      invariant matched == Matching(mac, start, end, before + records[..i]) && |matched| <= maxResults
    {
      assert before + records[..i + 1] == before + records[..i] + [records[i]];
      MatchingSnoc(mac, start, end, before + records[..i], records[i]);
      if Matches(mac, start, end, records[i]) {
        matched := matched + [records[i]];
        if |matched| > maxResults {
          MatchingPrefix(mac, start, end, before + records[..i + 1], before + records);
          return matched, true;
        }
      }
    }
    assert records[..|records|] == records;
    tooMany := false;
  }

  method QueryFlows(days: map<Day, Files<Item>>, deviceMac: string, window: Option<(int, int)>, maxResults: int)
    returns (answer: Result<seq<Item>, QueryError>)
    ensures answer == Answer(days, deviceMac, window, maxResults)
  {
    var normalized := NormalizeMac(deviceMac);
    if normalized.None? {
      return Err(BadMac);
    }
    if window.None? || window.value.1 <= window.value.0 {
      return Err(BadWindow);
    }
    if maxResults <= 0 {
      return Err(BadLimit);
    }
    var mac, start, end := Lower(normalized.value), window.value.0, window.value.1;
    var first, last := DayOf(start), DayOf(end);
    var matched: seq<Item> := [];
    var day := first;
    while day <= last
      invariant first <= day <= last + 1
      invariant matched == Matching(mac, start, end, Stored(days, first, day - 1)) && |matched| <= maxResults
    {
      var records: seq<Item> := [];
      if day in days {
        records := ReadAllIncludingRotated(days[day]);
      }
      var tooMany;
      matched, tooMany := CollectDay(mac, start, end, maxResults, matched, Stored(days, first, day - 1), records);
      if tooMany {
        StoredGrows(days, first, day, last);
        MatchingPrefix(mac, start, end, Stored(days, first, day), Stored(days, first, last));
        return Err(TooMany);
      }
      day := day + 1;
    }
    matched := SortMatched(matched);
    answer := Ok(matched);
  }

  /** A query is refused for its address, else for its window, else for its limit, and fails only with valid ones for too many flows. */
  lemma {:induction false} QueryRefusesExactly(days: map<Day, Files<Item>>, deviceMac: string, window: Option<(int, int)>, maxResults: int)
    ensures var answer := Answer(days, deviceMac, window, maxResults);
            var goodWindow := window.Some? && window.value.0 < window.value.1;
            && (answer == Err(BadMac) <==> NormalizeMac(deviceMac).None?)
            && (answer == Err(BadWindow) <==> NormalizeMac(deviceMac).Some? && !goodWindow)
            && (answer == Err(BadLimit) <==> NormalizeMac(deviceMac).Some? && goodWindow && maxResults < 1)
            && (answer == Err(TooMany) ==> NormalizeMac(deviceMac).Some? && goodWindow && maxResults >= 1)
  {
  }

  lemma {:induction false} StoredMembers(days: map<Day, Files<Item>>, first: Day, last: Day, x: Item)
    ensures x in Stored(days, first, last) <==> exists d :: first <= d <= last && x in LogOf(days, d)
    decreases last - first
  {
    if first <= last {
      StoredMembers(days, first, last - 1, x);
      MemberOfBoth(Stored(days, first, last - 1), LogOf(days, last), x);
      if x in LogOf(days, last) {
        assert first <= last <= last && x in LogOf(days, last);
      }
    }
  }

  lemma {:induction false} MemberOfBoth<T>(a: seq<T>, b: seq<T>, x: T)
    ensures x in a + b <==> x in a || x in b
  {
  }

  /** The text, in any case and with dashes for colons, is the address. */
  predicate NamesDevice(text: string, mac: string) {
    |text| == |mac| && forall i :: 0 <= i < |text| ==> LowerChar(text[i]) == LowerChar(mac[i]) || (text[i] in ":-" && mac[i] in ":-")
  }

  /** A flow of the device that was last seen in the window, its end not included. */
  predicate IsWanted(mac: string, start: int, end: int, f: Item) {
    && f.Flow? && (NamesDevice(f.srcMac, mac) || NamesDevice(f.dstMac, mac))
    && f.lastSeen.Some? && start <= f.lastSeen.value && f.lastSeen.value < end
  }

  function Wanted(mac: string, start: int, end: int): Item -> bool { (f: Item) => IsWanted(mac, start, end, f) }

  /** By the text of the first time seen, then by the text of the flow's id. */
  ghost predicate InOrder(a: Item, b: Item) {
    a.Flow? && b.Flow? && (a.firstSeen == b.firstSeen || StringLe(a.firstSeen, b.firstSeen))
    && (a.firstSeen == b.firstSeen ==> StringLe(a.flowId, b.flowId))
  }

  lemma {:induction false} MatchesExactly(deviceMac: string, start: int, end: int, f: Item)
    requires NormalizeMac(deviceMac).Some?
    ensures var mac := NormalizeMac(deviceMac).value; Matches(Lower(mac), start, end, f) <==> IsWanted(mac, start, end, f)
  {
    var mac := NormalizeMac(deviceMac).value;
    LoweredMacIsParticipant(deviceMac);
    if f.Flow? {
      ParticipantTells(f.srcMac, mac);
      ParticipantTells(f.dstMac, mac);
    }
  }

  lemma {:induction false} LoweredMacIsParticipant(deviceMac: string)
    requires NormalizeMac(deviceMac).Some?
    ensures Lower(NormalizeMac(deviceMac).value) == ParticipantMac(NormalizeMac(deviceMac).value)
  {
    NormalizeMacExactly(deviceMac);
    var mac := NormalizeMac(deviceMac).value;
    forall i | 0 <= i < 17
      ensures mac[i] != '-'
    {
      var k := i / 3;
      assert i == 3 * k || i == 3 * k + 1 || i == 3 * k + 2;
    }
    assert ColonsForDashes(mac) == mac;
  }

  lemma {:induction false} MatchingIsWanted(deviceMac: string, start: int, end: int, items: seq<Item>)
    requires NormalizeMac(deviceMac).Some?
    ensures Matching(Lower(NormalizeMac(deviceMac).value), start, end, items) == Filter(Wanted(NormalizeMac(deviceMac).value, start, end), items)
  {
    var mac := NormalizeMac(deviceMac).value;
    forall f: Item
      ensures Matches(Lower(mac), start, end, f) <==> Wanted(mac, start, end)(f)
    {
      MatchesExactly(deviceMac, start, end, f);
    }
    SameFilter((f: Item) => Matches(Lower(mac), start, end, f), Wanted(mac, start, end), items);
  }

  /**
   A query with valid arguments fails exactly when more than the limit match; otherwise it returns the device's
   in-window flows of the days the window touches, each as often as it is stored, in sorted order.
   */
  lemma {:induction false} QueryIsExact(days: map<Day, Files<Item>>, deviceMac: string, window: (int, int), maxResults: int)
    requires NormalizeMac(deviceMac).Some? && window.0 < window.1 && maxResults > 0
    ensures var wanted := Wanted(NormalizeMac(deviceMac).value, window.0, window.1);
            var matched := Filter(wanted, Stored(days, DayOf(window.0), DayOf(window.1)));
            var answer := Answer(days, deviceMac, Some(window), maxResults);
            && (answer == Err(TooMany) <==> |matched| > maxResults)
            && (answer.Ok? <==> |matched| <= maxResults)
            && (answer.Ok? ==>
                  (forall i, j :: 0 <= i < j < |answer.value| ==> InOrder(answer.value[i], answer.value[j]))
                  && multiset(answer.value) == multiset(matched)
                  && forall x :: x in answer.value <==> wanted(x) && exists d :: DayOf(window.0) <= d <= DayOf(window.1) && x in LogOf(days, d))
  {
    var mac := Lower(NormalizeMac(deviceMac).value);
    var wanted := Wanted(NormalizeMac(deviceMac).value, window.0, window.1);
    var all := Stored(days, DayOf(window.0), DayOf(window.1));
    MatchingIsWanted(deviceMac, window.0, window.1, all);
    var matched := Matching(mac, window.0, window.1, all);
    FilterMembers(wanted, all);
    StableSortSorts(matched);
    forall x
      ensures x in StableSort(matched) <==> wanted(x) && exists d :: DayOf(window.0) <= d <= DayOf(window.1) && x in LogOf(days, d)
    {
      assert x in StableSort(matched) <==> x in multiset(StableSort(matched));
      assert x in matched <==> x in multiset(matched);
      StoredMembers(days, DayOf(window.0), DayOf(window.1), x);
    }
    SortedInOrder(StableSort(matched));
  }

  lemma {:induction false} SortedInOrder(s: seq<Item>)
    requires Sorted(s) && AllFlows(s)
    ensures forall i, j :: 0 <= i < j < |s| ==> InOrder(s[i], s[j])
  {
  }

  /** Rotating a day's file, at any moment, changes no answer. */
  lemma {:induction false} RotationIsInvisible(days: map<Day, Files<Item>>, d: Day, deviceMac: string, window: Option<(int, int)>, maxResults: int)
    requires d in days && days[d].base.Some? && WellNumbered(days[d])
    ensures Answer(days[d := Rotate(days[d])], deviceMac, window, maxResults) == Answer(days, deviceMac, window, maxResults)
  {
    RotationKeepsLog(days[d]);
    if window.Some? {
      SameLogsSameStored(days, days[d := Rotate(days[d])], DayOf(window.value.0), DayOf(window.value.1));
    }
  }

  lemma {:induction false} SameLogsSameStored(days: map<Day, Files<Item>>, days': map<Day, Files<Item>>, first: Day, last: Day)
    requires forall d :: LogOf(days, d) == LogOf(days', d)
    ensures Stored(days, first, last) == Stored(days', first, last)
    decreases last - first
  {
    if first <= last {
      SameLogsSameStored(days, days', first, last - 1);
    }
  }

  // ---------------------------------------------------------------- from filing to finding

  /** The day a record is filed under: the local date when its flow is finalised. */
  function LocalDay(at: int, offset: int): Day { (at + offset) / DAY }

  /** The record appended to the store of that day. */
  function FiledOn<T>(days: map<Day, Files<T>>, d: Day, f: T): map<Day, Files<T>> {
    days[d := WithBatch(if d in days then days[d] else Files(None, map[]), [f])]
  }

  lemma {:induction false} FiledIsLogged(days: map<Day, Files<Item>>, d: Day, f: Item, e: Day)
    requires d in days ==> WellNumbered(days[d])
    ensures LogOf(FiledOn(days, d, f), e) == if e == d then LogOf(days, d) + [f] else LogOf(days, e)
  {
    var files: Files<Item> := if d in days then days[d] else Files(None, map[]);
    if d !in days {
      assert Contiguous(files.rotated, 0);
      assert Log(files) == [];
    }
    BatchExtendsLog(files, [f]);
  }

  /**
   * A matching record that was stored nowhere before is found by a query that answers, if and only if its local day
   * of finalisation is among the UTC days the window touches.
   */
  lemma {:induction false} FiledFlowIsFoundExactly(
      days: map<Day, Files<Item>>, f: Item, at: int, offset: int, deviceMac: string, window: (int, int), maxResults: int)
    requires NormalizeMac(deviceMac).Some? && window.0 < window.1 && maxResults > 0
    requires forall d :: d in days ==> WellNumbered(days[d])
    requires forall d :: f !in LogOf(days, d)
    requires IsWanted(NormalizeMac(deviceMac).value, window.0, window.1, f)
    requires Answer(FiledOn(days, LocalDay(at, offset), f), deviceMac, Some(window), maxResults).Ok?
    ensures f in Answer(FiledOn(days, LocalDay(at, offset), f), deviceMac, Some(window), maxResults).value
            <==> DayOf(window.0) <= LocalDay(at, offset) <= DayOf(window.1)
  {
    var d := LocalDay(at, offset);
    var days' := FiledOn(days, d, f);
    QueryIsExact(days', deviceMac, window, maxResults);
    forall e
      ensures f in LogOf(days', e) <==> e == d
    {
      FiledIsLogged(days, d, f, e);
    }
    if DayOf(window.0) <= d <= DayOf(window.1) {
      assert f in LogOf(days', d);
    }
  }

  const HOUR: int := 3_600_000_000
  const MINUTE: int := 60_000_000

  /**
   * Two hours east of Greenwich a flow that was last seen and finalised before 22:31 UTC is filed under the next day,
   * and the query for 22:00 to 23:00 UTC of its own day answers without it.
   */
  lemma {:induction false} LateEveningFlowIsNotFound(k: int, f: Item, deviceMac: string, maxResults: int)
    requires NormalizeMac(deviceMac).Some? && maxResults > 0
    requires IsWanted(NormalizeMac(deviceMac).value, k * DAY + 22 * HOUR, k * DAY + 22 * HOUR + 31 * MINUTE, f)
    ensures var start, at := k * DAY + 22 * HOUR, k * DAY + 22 * HOUR + 31 * MINUTE;
            && IsWanted(NormalizeMac(deviceMac).value, start, start + HOUR, f)
            && DayOf(at) == k && LocalDay(at, 2 * HOUR) == k + 1
            && f in LogOf(FiledOn(map[], LocalDay(at, 2 * HOUR), f), k + 1)
            && Answer(FiledOn(map[], LocalDay(at, 2 * HOUR), f), deviceMac, Some((start, start + HOUR)), maxResults) == Ok([])
  {
    var start, at := k * DAY + 22 * HOUR, k * DAY + 22 * HOUR + 31 * MINUTE;
    DayFromOffset(k, 22 * HOUR);
    DayFromOffset(k, 22 * HOUR + 31 * MINUTE);
    DayFromOffset(k, 23 * HOUR);
    DayFromOffset(k + 1, 31 * MINUTE);
    var days := FiledOn(map[], k + 1, f);
    FiledIsLogged(map[], k + 1, f, k + 1);
    assert k !in days;
    assert Stored(days, k, k) == Stored(days, k, k - 1) + [] == [];
  }

  lemma {:induction false} DayFromOffset(k: int, rest: int)
    requires 0 <= rest < DAY
    ensures (k * DAY + rest) / DAY == k
  {
  }
}
