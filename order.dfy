/** Python 2's ordering of unicode strings and of `(count, word)` tuples, and
    `sorted(pairs, reverse=True)` on such tuples. */
module PyOrder {

  /** A `(count, word)` tuple. */
  type Pair = (int, string)

  /** Python's `a <= b` on unicode strings: the first differing code point
      decides, and a proper prefix comes first. */
  predicate StrLeq(a: string, b: string)
  {
    a == [] || (b != [] && (a[0] < b[0] || (a[0] == b[0] && StrLeq(a[1..], b[1..]))))
  }

  lemma {:induction false} StrLeqTotal(a: string, b: string)
    ensures StrLeq(a, b) || StrLeq(b, a)
  {
    if a != [] && b != [] && a[0] == b[0] {
      StrLeqTotal(a[1..], b[1..]);
    }
  }

  lemma {:induction false} StrLeqAntisymmetric(a: string, b: string)
    requires StrLeq(a, b) && StrLeq(b, a)
    ensures a == b
  {
    if a != [] {
      StrLeqAntisymmetric(a[1..], b[1..]);
      assert a == [a[0]] + a[1..] && b == [b[0]] + b[1..];
    }
  }

  lemma {:induction false} StrLeqTransitive(a: string, b: string, c: string)
    requires StrLeq(a, b) && StrLeq(b, c)
    ensures StrLeq(a, c)
  {
    if a != [] && a[0] == b[0] && b[0] == c[0] {
      StrLeqTransitive(a[1..], b[1..], c[1..]);
    }
  }

  /** Python's `p <= q` on `(count, word)` tuples: by count, then by word. */
  predicate PairLeq(p: Pair, q: Pair)
  {
    p.0 < q.0 || (p.0 == q.0 && StrLeq(p.1, q.1))
  }

  lemma PairLeqTotal(p: Pair, q: Pair)
    ensures PairLeq(p, q) || PairLeq(q, p)
  {
    StrLeqTotal(p.1, q.1);
  }

  lemma PairLeqAntisymmetric(p: Pair, q: Pair)
    requires PairLeq(p, q) && PairLeq(q, p)
    ensures p == q
  {
    StrLeqAntisymmetric(p.1, q.1);
  }

  lemma PairLeqTransitive(p: Pair, q: Pair, r: Pair)
    requires PairLeq(p, q) && PairLeq(q, r)
    ensures PairLeq(p, r)
  {
    if p.0 == q.0 == r.0 {
      StrLeqTransitive(p.1, q.1, r.1);
    }
  }

  /** Every later entry is `<=` every earlier one: the order that
      `sorted(..., reverse=True)` produces. */
  predicate NonIncreasing(s: seq<Pair>)
  {
    forall i, j :: 0 <= i < j < |s| ==> PairLeq(s[j], s[i])
  }

  /** Putting a new largest entry in front keeps the order. */
  lemma PrependNonIncreasing(x: Pair, s: seq<Pair>)
    requires NonIncreasing(s)
    requires forall e :: e in s ==> PairLeq(e, x)
    ensures NonIncreasing([x] + s)
  {
    var r := [x] + s;
    forall i, j | 0 <= i < j < |r| ensures PairLeq(r[j], r[i]) {
      assert r[j] == s[j - 1];
      if i > 0 {
        assert r[i] == s[i - 1];
      }
    }
  }

  /** Inserts `x` into a non-increasing list before the first entry `<= x`. */
  function Insert(x: Pair, s: seq<Pair>): (r: seq<Pair>)
    requires NonIncreasing(s)
    ensures NonIncreasing(r)
    ensures multiset(r) == multiset(s) + multiset{x}
  {
    if s == [] then
      [x]
    else if PairLeq(s[0], x) then
      InsertInFront(x, s);
      [x] + s
    else
      var t := Insert(x, s[1..]);
      InsertBehind(x, s, t);
      [s[0]] + t
  }

  /** `x` at least the head of `s` may go in front of it. */
  lemma InsertInFront(x: Pair, s: seq<Pair>)
    requires NonIncreasing(s) && s != [] && PairLeq(s[0], x)
    ensures NonIncreasing([x] + s)
  {
    forall e | e in s ensures PairLeq(e, x) {
      var j :| 0 <= j < |s| && s[j] == e;
      if j > 0 {
        PairLeqTransitive(e, s[0], x);
      }
    }
    PrependNonIncreasing(x, s);
  }

  /** `x` below the head of `s`, inserted into the tail giving `t`: the head
      may stay in front of `t`. */
  lemma InsertBehind(x: Pair, s: seq<Pair>, t: seq<Pair>)
    requires NonIncreasing(s) && s != [] && !PairLeq(s[0], x)
    requires NonIncreasing(t) && multiset(t) == multiset(s[1..]) + multiset{x}
    ensures NonIncreasing([s[0]] + t)
    ensures multiset([s[0]] + t) == multiset(s) + multiset{x}
  {
    assert s == [s[0]] + s[1..];
    forall e | e in t ensures PairLeq(e, s[0]) {
      assert e in multiset(t);
      if e == x {
        PairLeqTotal(x, s[0]);
      } else {
        assert e in multiset(s[1..]);
        var j :| 0 <= j < |s[1..]| && s[1..][j] == e;
        assert s[j + 1] == e;
      }
    }
    PrependNonIncreasing(s[0], t);
  }

  /** `sorted(s, reverse=True)`, modelled as an insertion sort. */
  function SortDescending(s: seq<Pair>): (r: seq<Pair>)
    ensures NonIncreasing(r)
    ensures multiset(r) == multiset(s)
  {
    if s == [] then []
    else
      assert s == [s[0]] + s[1..];
      Insert(s[0], SortDescending(s[1..]))
  }

  /** Two non-increasing lists holding the same entries are equal: the
      sorted list depends only on what is sorted, not on the order the
      entries came in. */
  lemma {:induction false} SortedUnique(s: seq<Pair>, t: seq<Pair>)
    requires NonIncreasing(s) && NonIncreasing(t)
    requires multiset(s) == multiset(t)
    ensures s == t
    decreases |s|
  {
    assert |s| == |multiset(s)| == |multiset(t)| == |t|;
    if s != [] {
      assert s[0] in multiset(t);
      var j :| 0 <= j < |t| && t[j] == s[0];
      if j == 0 {
        PairLeqTotal(s[0], s[0]);
      }
      assert PairLeq(s[0], t[0]);
      assert t[0] in multiset(s);
      var k :| 0 <= k < |s| && s[k] == t[0];
      if k == 0 {
        PairLeqTotal(t[0], t[0]);
      }
      assert PairLeq(t[0], s[0]);
      PairLeqAntisymmetric(s[0], t[0]);
      assert s == [s[0]] + s[1..] && t == [t[0]] + t[1..];
      assert multiset(s) == multiset{s[0]} + multiset(s[1..]);
      assert multiset(t) == multiset{s[0]} + multiset(t[1..]);
      forall p ensures multiset(s[1..])[p] == multiset(t[1..])[p] {
        assert multiset(s)[p] == multiset(t)[p];
      }
      assert multiset(s[1..]) == multiset(t[1..]);
      SortedUnique(s[1..], t[1..]);
    }
  }
}
