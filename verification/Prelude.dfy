/** Small shared vocabulary: results, bytes, filters over sequences and powers of two. */
module Prelude {

  datatype Option<+T> = None | Some(value: T)

  datatype Result<+T, +E> = Ok(value: T) | Err(error: E)

  type Byte = b: int | 0 <= b < 256

  function Max(a: int, b: int): int { if a < b then b else a }

  function Min(a: int, b: int): int { if b < a then b else a }

  function Pow2(n: nat): (p: nat)
    ensures p >= 1
  {
    if n == 0 then 1 else 2 * Pow2(n - 1)
  }

  /** The elements of `s` that satisfy `p`, in their order. */
  function Filter<T>(p: T -> bool, s: seq<T>): seq<T> {
    if s == [] then [] else if p(s[0]) then [s[0]] + Filter(p, s[1..]) else Filter(p, s[1..])
  }

  lemma {:induction false} FilterAppend<T>(p: T -> bool, s: seq<T>, t: seq<T>)
    ensures Filter(p, s + t) == Filter(p, s) + Filter(p, t)
  {
    if s == [] {
      assert s + t == t;
    } else {
      assert (s + t)[0] == s[0] && (s + t)[1..] == s[1..] + t;
      FilterAppend(p, s[1..], t);
    }
  }

  lemma {:induction false} FilterCons<T>(p: T -> bool, x: T, s: seq<T>)
    ensures Filter(p, [x] + s) == if p(x) then [x] + Filter(p, s) else Filter(p, s)
  {
    assert ([x] + s)[1..] == s;
  }

  lemma {:induction false} FilterSnoc<T>(p: T -> bool, s: seq<T>, x: T)
    ensures Filter(p, s + [x]) == if p(x) then Filter(p, s) + [x] else Filter(p, s)
  {
    FilterAppend(p, s, [x]);
    assert [x][1..] == [];
    assert Filter(p, [x]) == if p(x) then [x] else [];
  }

  lemma {:induction false} FilterMembers<T>(p: T -> bool, s: seq<T>)
    ensures forall x :: x in Filter(p, s) <==> x in s && p(x)
    ensures |Filter(p, s)| <= |s|
  {
    if s != [] {
      FilterMembers(p, s[1..]);
      assert s == [s[0]] + s[1..];
    }
  }

  lemma {:induction false} FilterAll<T>(p: T -> bool, s: seq<T>)
    requires forall x :: x in s ==> p(x)
    ensures Filter(p, s) == s
  {
    if s != [] {
      FilterAll(p, s[1..]);
      assert s == [s[0]] + s[1..];
    }
  }

  lemma {:induction false} FilterNone<T>(p: T -> bool, s: seq<T>)
    requires forall x :: x in s ==> !p(x)
    ensures Filter(p, s) == []
  {
    if s != [] {
      FilterNone(p, s[1..]);
    }
  }

  lemma {:induction false} FilterShorter<T>(p: T -> bool, q: T -> bool, s: seq<T>)
    requires forall i :: 0 <= i < |s| && p(s[i]) ==> q(s[i])
    ensures |Filter(p, s)| <= |Filter(q, s)|
  {
    if s != [] {
      FilterShorter(p, q, s[1..]);
    }
  }

  function Map<T, U>(f: T -> U, s: seq<T>): (r: seq<U>)
    ensures |r| == |s|
    ensures forall i :: 0 <= i < |s| ==> r[i] == f(s[i])
  {
    seq(|s|, i requires 0 <= i < |s| => f(s[i]))
  }

  lemma {:induction false} MapAppend<T, U>(f: T -> U, s: seq<T>, t: seq<T>)
    ensures Map(f, s + t) == Map(f, s) + Map(f, t)
  {
  }

  /** The last `n` elements, all of them if there are fewer. */
  function LastOf<T>(s: seq<T>, n: nat): seq<T> { if |s| <= n then s else s[|s| - n..] }

  lemma {:induction false} LastOfSnoc<T>(s: seq<T>, x: T, n: nat)
    requires n > 0
    ensures LastOf(s + [x], n) == LastOf(LastOf(s, n) + [x], n)
  {
  }

  lemma {:induction false} Associates<T>(a: seq<T>, b: seq<T>, c: seq<T>)
    ensures (a + b) + c == a + (b + c)
  {
  }

  predicate Ascending(times: seq<int>) {
    forall i, j :: 0 <= i < j < |times| ==> times[i] <= times[j]
  }

  ghost predicate NoDup<T>(s: seq<T>) {
    forall i, j :: 0 <= i < j < |s| ==> s[i] != s[j]
  }

  /** All the sequences of `ss`, one after the other. */
  function Concat<T>(ss: seq<seq<T>>): seq<T> {
    if ss == [] then [] else ss[0] + Concat(ss[1..])
  }

  lemma {:induction false} ConcatSnoc<T>(ss: seq<seq<T>>, t: seq<T>)
    ensures Concat(ss + [t]) == Concat(ss) + t
  {
    if ss == [] {
      assert ss + [t] == [t] && [t][1..] == [];
      assert Concat([t]) == t + Concat<T>([]);
    } else {
      assert (ss + [t])[0] == ss[0] && (ss + [t])[1..] == ss[1..] + [t];
      ConcatSnoc(ss[1..], t);
    }
  }

  function FoldLeft<A, B>(f: (A, B) -> A, a: A, bs: seq<B>): A
    decreases |bs|
  {
    if bs == [] then a else FoldLeft(f, f(a, bs[0]), bs[1..])
  }

  lemma {:induction false} FoldAppend<A, B>(f: (A, B) -> A, a: A, bs: seq<B>, cs: seq<B>)
    ensures FoldLeft(f, a, bs + cs) == FoldLeft(f, FoldLeft(f, a, bs), cs)
    decreases |bs|
  {
    if bs == [] {
      assert bs + cs == cs;
    } else {
      assert (bs + cs)[0] == bs[0] && (bs + cs)[1..] == bs[1..] + cs;
      FoldAppend(f, f(a, bs[0]), bs[1..], cs);
    }
  }

  lemma {:induction false} FoldOne<A, B>(f: (A, B) -> A, a: A, b: B)
    ensures FoldLeft(f, a, [b]) == f(a, b)
  {
    assert [b][1..] == [];
  }

  lemma {:induction false} FoldSnoc<A, B>(f: (A, B) -> A, a: A, bs: seq<B>, b: B)
    ensures FoldLeft(f, a, bs + [b]) == f(FoldLeft(f, a, bs), b)
  {
    FoldAppend(f, a, bs, [b]);
    FoldOne(f, FoldLeft(f, a, bs), b);
  }
}
