/** Text: the order of strings, case, decimal numbers, joined fields and dotted IPv4 addresses. */
module Text {
  import opened Prelude

  // ---------------------------------------------------------------- order

  predicate StringLe(a: string, b: string) {
    a == "" || (b != "" && (a[0] < b[0] || (a[0] == b[0] && StringLe(a[1..], b[1..]))))
  }

  predicate StringLt(a: string, b: string) { a != b && StringLe(a, b) }

  lemma {:induction false} StringLeTotal(a: string, b: string)
    ensures StringLe(a, b) || StringLe(b, a)
  {
    if a != "" && b != "" && a[0] == b[0] {
      StringLeTotal(a[1..], b[1..]);
    }
  }

  lemma {:induction false} StringLeReflexive(a: string)
    ensures StringLe(a, a)
  {
    StringLeTotal(a, a);
  }

  lemma {:induction false} StringLeAntisymmetric(a: string, b: string)
    requires StringLe(a, b) && StringLe(b, a)
    ensures a == b
  {
    if a != "" {
      StringLeAntisymmetric(a[1..], b[1..]);
      assert a == [a[0]] + a[1..] && b == [b[0]] + b[1..];
    }
  }

  lemma {:induction false} StringLeTransitive(a: string, b: string, c: string)
    requires StringLe(a, b) && StringLe(b, c)
    ensures StringLe(a, c)
  {
    if a != "" && a[0] == b[0] && b[0] == c[0] {
      StringLeTransitive(a[1..], b[1..], c[1..]);
    }
  }

  /** Texts are ordered by their first different characters, and a text comes before its continuations. */
  lemma {:induction false} StringLeMeaning(a: string, b: string)
    ensures StringLe(a, b) <==> a <= b || exists i :: DiffersUpwards(a, b, i)
  {
    if a != "" && b != "" && a[0] == b[0] {
      StringLeMeaning(a[1..], b[1..]);
      assert a == [a[0]] + a[1..] && b == [b[0]] + b[1..];
      if i :| DiffersUpwards(a[1..], b[1..], i) {
        assert a[..i + 1] == [a[0]] + a[1..][..i] && b[..i + 1] == [b[0]] + b[1..][..i];
        assert DiffersUpwards(a, b, i + 1);
      }
      if i :| DiffersUpwards(a, b, i) {
        assert a[1..][..i - 1] == a[..i][1..] && b[1..][..i - 1] == b[..i][1..];
        assert DiffersUpwards(a[1..], b[1..], i - 1);
      }
    } else if a != "" && b != "" {
      assert a[0] < b[0] ==> DiffersUpwards(a, b, 0);
    }
  }

  predicate DiffersUpwards(a: string, b: string, i: int) {
    0 <= i < |a| && i < |b| && a[..i] == b[..i] && a[i] < b[i]
  }

  // ---------------------------------------------------------------- case

  function LowerChar(c: char): char {
    if 'A' <= c <= 'Z' then (c as int + 32) as char else c
  }

  function Lower(s: string): string { Map(LowerChar, s) }

  lemma {:induction false} LowerOfLower(s: string)
    requires forall i :: 0 <= i < |s| ==> !('A' <= s[i] <= 'Z')
    ensures Lower(s) == s
  {
  }

  function UpperChar(c: char): char {
    if 'a' <= c <= 'z' then (c as int - 32) as char else c
  }

  function Upper(s: string): string { Map(UpperChar, s) }

  /** Case is that of the 26 letters, one by one; no other character has one. */
  lemma {:induction false} CaseTells(c: char)
    ensures var upper, lower := "ABCDEFGHIJKLMNOPQRSTUVWXYZ", "abcdefghijklmnopqrstuvwxyz";
            && (forall i :: 0 <= i < 26 ==> LowerChar(upper[i]) == lower[i] && UpperChar(lower[i]) == upper[i])
            && (c !in upper ==> LowerChar(c) == c) && (c !in lower ==> UpperChar(c) == c)
  {
    var upper, lower := "ABCDEFGHIJKLMNOPQRSTUVWXYZ", "abcdefghijklmnopqrstuvwxyz";
    assert forall i :: 0 <= i < 26 ==> upper[i] as int == 65 + i && lower[i] as int == 97 + i;
    if 'A' <= c <= 'Z' {
      assert upper[c as int - 65] == c;
    }
    if 'a' <= c <= 'z' {
      assert lower[c as int - 97] == c;
    }
  }

  // ---------------------------------------------------------------- trimming

  /** The characters `str.strip` removes. */
  predicate IsSpace(c: char) {
    var n := c as int;
    || 9 <= n <= 13 || 28 <= n <= 32 || n == 0x85 || n == 0xA0 || n == 0x1680 || 0x2000 <= n <= 0x200A
    || n == 0x2028 || n == 0x2029 || n == 0x202F || n == 0x205F || n == 0x3000
  }

  lemma {:induction false} SpacesAre(c: char)
    ensures IsSpace(c) <==>
            || c in "\t\n\U{0B}\U{0C}\r\U{1C}\U{1D}\U{1E}\U{1F} \U{85}\U{A0}\U{1680}"
            || '\U{2000}' <= c <= '\U{200A}' || c in "\U{2028}\U{2029}\U{202F}\U{205F}\U{3000}"
  {
  }

  function TrimLeft<T>(drop: T -> bool, s: seq<T>): seq<T> {
    if s != [] && drop(s[0]) then TrimLeft(drop, s[1..]) else s
  }

  function TrimRight<T>(drop: T -> bool, s: seq<T>): seq<T> {
    if s != [] && drop(s[|s| - 1]) then TrimRight(drop, s[..|s| - 1]) else s
  }

  function Trim<T>(drop: T -> bool, s: seq<T>): seq<T> { TrimRight(drop, TrimLeft(drop, s)) }

  /** Neither end of the text would be dropped. */
  predicate Trimmed<T>(drop: T -> bool, s: seq<T>) {
    s == [] || (!drop(s[0]) && !drop(s[|s| - 1]))
  }

  lemma {:induction false} TrimOfTrimmed<T>(drop: T -> bool, s: seq<T>)
    requires Trimmed(drop, s)
    ensures Trim(drop, s) == s
  {
  }

  lemma {:induction false} TrimRightShape<T>(drop: T -> bool, s: seq<T>)
    ensures TrimRight(drop, s) <= s
    ensures TrimRight(drop, s) != [] ==> !drop(TrimRight(drop, s)[|TrimRight(drop, s)| - 1])
    decreases |s|
  {
    if s != [] && drop(s[|s| - 1]) {
      TrimRightShape(drop, s[..|s| - 1]);
    }
  }

  lemma {:induction false} TrimLeftShape<T>(drop: T -> bool, s: seq<T>)
    ensures |TrimLeft(drop, s)| <= |s| && TrimLeft(drop, s) == s[|s| - |TrimLeft(drop, s)|..]
    ensures TrimLeft(drop, s) != [] ==> !drop(TrimLeft(drop, s)[0])
  {
    if s != [] && drop(s[0]) {
      TrimLeftShape(drop, s[1..]);
    }
  }

  lemma {:induction false} TrimIsTrimmed<T>(drop: T -> bool, s: seq<T>)
    ensures Trimmed(drop, Trim(drop, s)) && |Trim(drop, s)| <= |s|
    ensures forall x :: x in Trim(drop, s) ==> x in s
  {
    TrimLeftShape(drop, s);
    TrimRightShape(drop, TrimLeft(drop, s));
  }

  /** Trimming takes away exactly the dropped characters at the two ends. */
  lemma {:induction false} TrimMeaning<T>(drop: T -> bool, s: seq<T>) returns (i: nat, j: nat)
    ensures i <= j <= |s| && Trim(drop, s) == s[i..j] && Trimmed(drop, s[i..j])
    ensures forall k :: 0 <= k < i || j <= k < |s| ==> drop(s[k])
  {
    i := TrimLeftMeaning(drop, s);
    var k := TrimRightMeaning(drop, s[i..]);
    j := i + k;
    assert s[i..][..k] == s[i..j];
    forall l | j <= l < |s|
      ensures drop(s[l])
    {
      assert s[i..][l - i] == s[l];
    }
    if i < j {
      assert s[i..j][0] == s[i];
    }
  }

  lemma {:induction false} TrimLeftMeaning<T>(drop: T -> bool, s: seq<T>) returns (i: nat)
    ensures i <= |s| && TrimLeft(drop, s) == s[i..] && (i < |s| ==> !drop(s[i]))
    ensures forall k :: 0 <= k < i ==> drop(s[k])
  {
    i := 0;
    if s != [] && drop(s[0]) {
      var n := TrimLeftMeaning(drop, s[1..]);
      i := n + 1;
      forall k | 0 <= k < i
        ensures drop(s[k])
      {
        assert k > 0 ==> s[k] == s[1..][k - 1];
      }
    }
  }

  lemma {:induction false} TrimRightMeaning<T>(drop: T -> bool, s: seq<T>) returns (j: nat)
    ensures j <= |s| && TrimRight(drop, s) == s[..j] && (j > 0 ==> !drop(s[j - 1]))
    ensures forall k :: j <= k < |s| ==> drop(s[k])
    decreases |s|
  {
    j := |s|;
    if s != [] && drop(s[|s| - 1]) {
      j := TrimRightMeaning(drop, s[..|s| - 1]);
    } else {
      assert s[..j] == s;
    }
  }

  lemma {:induction false} TrimIsEmptyExactly<T>(drop: T -> bool, s: seq<T>)
    ensures Trim(drop, s) == [] <==> forall k :: 0 <= k < |s| ==> drop(s[k])
  {
    var i, j := TrimMeaning(drop, s);
    if i < j {
      assert s[i..j][0] == s[i];
    }
  }

  /** `needle` occurs in `text`. */
  predicate Contains(text: string, needle: string) {
    |needle| <= |text| && (text[..|needle|] == needle || Contains(text[1..], needle))
  }

  predicate OccursAt(text: string, needle: string, i: int) {
    0 <= i <= |text| - |needle| && text[i..i + |needle|] == needle
  }

  lemma {:induction false} ContainsMeaning(text: string, needle: string)
    ensures Contains(text, needle) <==> exists i :: OccursAt(text, needle, i)
  {
    if |needle| <= |text| {
      if text[..|needle|] == needle {
        assert OccursAt(text, needle, 0);
      } else if text != "" {
        ContainsMeaning(text[1..], needle);
        if Contains(text[1..], needle) {
          var i :| OccursAt(text[1..], needle, i);
          assert text[1..][i..i + |needle|] == text[i + 1..i + 1 + |needle|];
          assert OccursAt(text, needle, i + 1);
        }
        forall i | OccursAt(text, needle, i)
          ensures OccursAt(text[1..], needle, i - 1)
        {
          assert i > 0;
          assert text[1..][i - 1..i - 1 + |needle|] == text[i..i + |needle|];
        }
      }
    }
  }

  // ---------------------------------------------------------------- decimal numbers

  predicate IsDigit(c: char) { '0' <= c <= '9' }

  function Digit(d: nat): char
    requires d < 10
  {
    (48 + d) as char
  }

  function DigitValue(c: char): nat
    requires IsDigit(c)
  {
    c as int - 48
  }

  /** The decimal text of a number, as `str(n)` writes it. */
  function Decimal(n: nat): (s: string)
    ensures s != "" && forall c :: c in s ==> IsDigit(c)
  {
    if n < 10 then [Digit(n)] else Decimal(n / 10) + [Digit(n % 10)]
  }

  function Number(s: string): nat
    requires forall c :: c in s ==> IsDigit(c)
  {
    if s == "" then 0
    else
      assert s[|s| - 1] in s && IsDigit(s[|s| - 1]);
      10 * Number(s[..|s| - 1]) + DigitValue(s[|s| - 1])
  }

  lemma {:induction false} NumberOfDecimal(n: nat)
    ensures Number(Decimal(n)) == n
    ensures n >= 1 ==> Decimal(n)[0] != '0'
  {
    if n >= 10 {
      NumberOfDecimal(n / 10);
      var front := Decimal(n / 10);
      assert (front + [Digit(n % 10)])[..|front|] == front;
    } else {
      assert Decimal(n)[..0] == "";
    }
  }

  lemma {:induction false} DecimalInjective(a: nat, b: nat)
    requires Decimal(a) == Decimal(b)
    ensures a == b
  {
    NumberOfDecimal(a);
    NumberOfDecimal(b);
  }

  // ---------------------------------------------------------------- fields

  function Join<T>(fields: seq<seq<T>>, sep: T): seq<T> {
    if fields == [] then []
    else if |fields| == 1 then fields[0]
    else fields[0] + [sep] + Join(fields[1..], sep)
  }

  lemma {:induction false} JoinAppend<T>(a: seq<seq<T>>, b: seq<seq<T>>, sep: T)
    requires a != [] && b != []
    ensures Join(a + b, sep) == Join(a, sep) + [sep] + Join(b, sep)
  {
    assert (a + b)[1..] == a[1..] + b;
    if |a| == 1 {
      assert a[1..] + b == b;
    } else {
      JoinAppend(a[1..], b, sep);
      assert a[0] + [sep] + (Join(a[1..], sep) + [sep] + Join(b, sep)) == (a[0] + [sep] + Join(a[1..], sep)) + [sep] + Join(b, sep);
    }
  }

  lemma {:induction false} JoinHasNo(fields: seq<string>, sep: char, c: char)
    requires c != sep && forall f :: f in fields ==> c !in f
    ensures c !in Join(fields, sep)
  {
    if |fields| > 1 {
      JoinHasNo(fields[1..], sep, c);
    }
  }

  /** Where the first `sep` is, or the length if there is none. */
  function UpTo<T(==)>(s: seq<T>, sep: T): (i: nat)
    ensures i <= |s|
    ensures forall j :: 0 <= j < i ==> s[j] != sep
    ensures i < |s| ==> s[i] == sep
  {
    if s == [] || s[0] == sep then 0 else 1 + UpTo(s[1..], sep)
  }

  /** `s.split(sep)`. */
  function Split<T(==)>(s: seq<T>, sep: T): (fields: seq<seq<T>>)
    ensures fields != []
    decreases |s|
  {
    var i := UpTo(s, sep);
    if i == |s| then [s] else [s[..i]] + Split(s[i + 1..], sep)
  }

  lemma {:induction false} UpToField<T>(field: seq<T>, sep: T, rest: seq<T>)
    requires sep !in field
    ensures UpTo(field, sep) == |field|
    ensures UpTo(field + [sep] + rest, sep) == |field|
  {
    var s := field + [sep] + rest;
    assert s[|field|] == sep;
    assert forall j :: 0 <= j < |field| ==> s[j] == field[j] && field[j] in field;
    assert forall j :: 0 <= j < |field| ==> s[j] != sep;
  }

  /** Splitting undoes joining when no field contains the separator. */
  lemma {:induction false} SplitOfJoin<T>(fields: seq<seq<T>>, sep: T)
    requires fields != [] && forall f :: f in fields ==> sep !in f
    ensures Split(Join(fields, sep), sep) == fields
  {
    if |fields| == 1 {
      UpToField(fields[0], sep, []);
    } else {
      var rest := Join(fields[1..], sep);
      UpToField(fields[0], sep, rest);
      var s := fields[0] + [sep] + rest;
      assert s[..|fields[0]|] == fields[0] && s[|fields[0]| + 1..] == rest;
      SplitOfJoin(fields[1..], sep);
    }
  }

  // ---------------------------------------------------------------- dotted IPv4 addresses

  /** `str(IPv4Address(bytes))`. */
  function DottedQuad(b: seq<Byte>): string
    requires |b| == 4
  {
    Join([Decimal(b[0]), Decimal(b[1]), Decimal(b[2]), Decimal(b[3])], '.')
  }

  /** One octet as `ipaddress` reads it: one to three ASCII digits, no leading zero, below 256. */
  function Octet(s: string): Option<Byte> {
    if !(1 <= |s| <= 3) || (exists i :: 0 <= i < |s| && !IsDigit(s[i])) then None
    else if |s| > 1 && s[0] == '0' then None
    else if Number(s) < 256 then Some(Number(s)) else None
  }

  /** The four bytes of a dotted IPv4 address, None if the text is not one. */
  function ParseQuad(s: string): Option<seq<Byte>> {
    var parts := Split(s, '.');
    if |parts| != 4 then None
    else
      var a, b, c, d := Octet(parts[0]), Octet(parts[1]), Octet(parts[2]), Octet(parts[3]);
      if a.Some? && b.Some? && c.Some? && d.Some? then Some([a.value, b.value, c.value, d.value]) else None
  }

  lemma {:induction false} OctetOfDecimal(b: Byte)
    ensures Octet(Decimal(b)) == Some(b)
  {
    NumberOfDecimal(b);
    if b < 10 {
      assert |Decimal(b)| == 1;
    } else if b < 100 {
      assert Decimal(b) == Decimal(b / 10) + [Digit(b % 10)] && |Decimal(b / 10)| == 1;
    } else {
      assert Decimal(b) == Decimal(b / 10) + [Digit(b % 10)];
      assert Decimal(b / 10) == Decimal(b / 10 / 10) + [Digit(b / 10 % 10)] && |Decimal(b / 10 / 10)| == 1;
    }
    assert forall i :: 0 <= i < |Decimal(b)| ==> Decimal(b)[i] in Decimal(b);
  }

  /** Reading back a written address gives its bytes. */
  lemma {:induction false} ParseOfDottedQuad(b: seq<Byte>)
    requires |b| == 4
    ensures ParseQuad(DottedQuad(b)) == Some(b)
  {
    var fields := [Decimal(b[0]), Decimal(b[1]), Decimal(b[2]), Decimal(b[3])];
    forall f | f in fields
      ensures '.' !in f
    {
      assert !IsDigit('.');
    }
    SplitOfJoin(fields, '.');
    var parts := Split(DottedQuad(b), '.');
    assert parts == fields && |parts| == 4;
    assert parts[0] == Decimal(b[0]) && parts[1] == Decimal(b[1]) && parts[2] == Decimal(b[2]) && parts[3] == Decimal(b[3]);
    OctetOfDecimal(b[0]);
    OctetOfDecimal(b[1]);
    OctetOfDecimal(b[2]);
    OctetOfDecimal(b[3]);
    assert [b[0], b[1], b[2], b[3]] == b;
  }

  lemma {:induction false} JoinOfSplit<T>(s: seq<T>, sep: T)
    ensures Join(Split(s, sep), sep) == s
    decreases |s|
  {
    var i := UpTo(s, sep);
    if i < |s| {
      var head, tail := s[..i], s[i + 1..];
      JoinOfSplit(tail, sep);
      JoinCons(head, Split(tail, sep), sep);
      assert s == head + [sep] + tail;
    }
  }

  lemma {:induction false} JoinCons<T>(head: seq<T>, fields: seq<seq<T>>, sep: T)
    requires fields != []
    ensures Join([head] + fields, sep) == head + [sep] + Join(fields, sep)
  {
    assert ([head] + fields)[1..] == fields;
  }

  lemma {:induction false} DecimalOfNumber(s: string)
    requires s != "" && (forall i :: 0 <= i < |s| ==> IsDigit(s[i])) && (|s| > 1 ==> s[0] != '0')
    ensures (forall c :: c in s ==> IsDigit(c)) && Decimal(Number(s)) == s && (s[0] != '0' ==> Number(s) >= 1)
    decreases |s|
  {
    var n := |s| - 1;
    assert s == s[..n] + [s[n]];
    if n > 0 {
      DecimalOfNumber(s[..n]);
      var front := Number(s[..n]);
      assert s[..n][0] == s[0];
      assert Number(s) == 10 * front + DigitValue(s[n]) && Number(s) / 10 == front && Number(s) % 10 == DigitValue(s[n]);
      assert Decimal(Number(s)) == Decimal(front) + [Digit(DigitValue(s[n]))];
    } else {
      assert s[..0] == "";
      assert Number(s) == DigitValue(s[0]);
    }
  }

  lemma {:induction false} OctetExactly(s: string, b: Byte)
    ensures Octet(s) == Some(b) <==> s == Decimal(b)
  {
    OctetOfDecimal(b);
    if Octet(s) == Some(b) {
      DecimalOfNumber(s);
    }
  }

  /** Only the written address reads as these bytes. */
  lemma {:induction false} ParseQuadExactly(s: string, b: seq<Byte>)
    requires |b| == 4
    ensures ParseQuad(s) == Some(b) <==> s == DottedQuad(b)
  {
    ParseOfDottedQuad(b);
    if ParseQuad(s) == Some(b) {
      var parts := Split(s, '.');
      JoinOfSplit(s, '.');
      OctetExactly(parts[0], b[0]);
      OctetExactly(parts[1], b[1]);
      OctetExactly(parts[2], b[2]);
      OctetExactly(parts[3], b[3]);
      assert parts == [Decimal(b[0]), Decimal(b[1]), Decimal(b[2]), Decimal(b[3])];
    }
  }

  lemma {:induction false} ParseQuadMeaning(s: string)
    ensures ParseQuad(s).Some? ==> |ParseQuad(s).value| == 4 && DottedQuad(ParseQuad(s).value) == s
    ensures forall q: seq<Byte> :: |q| == 4 && DottedQuad(q) == s ==> ParseQuad(s) == Some(q)
  {
    if ParseQuad(s).Some? {
      ParseQuadExactly(s, ParseQuad(s).value);
    }
    forall q: seq<Byte> | |q| == 4 && DottedQuad(q) == s
      ensures ParseQuad(s) == Some(q)
    {
      ParseQuadExactly(s, q);
    }
  }

  /** A written address has no white space, at its ends or elsewhere. */
  lemma {:induction false} DottedQuadIsTrimmed(b: seq<Byte>)
    requires |b| == 4
    ensures Trim(IsSpace, DottedQuad(b)) == DottedQuad(b)
  {
    var fields := [Decimal(b[0]), Decimal(b[1]), Decimal(b[2]), Decimal(b[3])];
    var text := DottedQuad(b);
    forall c | c in text
      ensures !IsSpace(c)
    {
      if IsSpace(c) {
        forall f | f in fields
          ensures c !in f
        {
          assert !IsDigit(c);
        }
        JoinHasNo(fields, '.', c);
        assert false;
      }
    }
    if text != "" {
      assert text[0] in text && text[|text| - 1] in text;
    }
    TrimOfTrimmed(IsSpace, text);
  }
}
