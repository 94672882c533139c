/** Python building blocks shared by both scripts: optional arguments,
    `list.count`, flattening a list of lists, sums, and slicing. */
module Common {

  /** An argument that may be absent (`None` in Python). */
  datatype Option<T> = None | Some(value: T)

  function Min(a: int, b: int): int { if a <= b then a else b }

  function Max(a: int, b: int): int { if a <= b then b else a }

  /** `s.count(w)`: how many positions of `s` hold `w`. */
  function Count<T(==)>(s: seq<T>, w: T): (r: nat)
    ensures r <= |s|
    ensures r > 0 <==> w in s
  {
    if s == [] then 0 else (if s[0] == w then 1 else 0) + Count(s[1..], w)
  }

  /** Counting positions agrees with the multiplicity in the multiset of `s`
      (a `collections.Counter` over `s`). */
  lemma {:induction false} CountIsMultiplicity<T>(s: seq<T>, w: T)
    ensures Count(s, w) == multiset(s)[w]
  {
    if s != [] {
      CountIsMultiplicity(s[1..], w);
      assert s == [s[0]] + s[1..];
    }
  }

  /** `[item for sublist in xss for item in sublist]`. */
  function Flatten<T>(xss: seq<seq<T>>): seq<T>
  {
    if xss == [] then [] else xss[0] + Flatten(xss[1..])
  }

  lemma {:induction false} FlattenAppend<T>(a: seq<seq<T>>, b: seq<seq<T>>)
    ensures Flatten(a + b) == Flatten(a) + Flatten(b)
  {
    if a == [] {
      assert a + b == b;
    } else {
      assert (a + b)[1..] == a[1..] + b;
      FlattenAppend(a[1..], b);
    }
  }

  /** `sum(s)`. */
  function Sum(s: seq<int>): int
  {
    if s == [] then 0 else s[0] + Sum(s[1..])
  }

  /** Where a slice bound `i` lands in a sequence of length `n`: a negative
      bound counts from the end, and bounds are clamped to `0 .. n`. */
  function SliceBound(i: int, n: nat): (r: nat)
    ensures r <= n
    ensures 0 <= i <= n ==> r == i
    ensures i > n ==> r == n
    ensures i < 0 ==> r == Max(0, n + i)
  {
    if i < 0 then (if n + i < 0 then 0 else n + i) else if i > n then n else i
  }

  /** Python's `s[lo:hi]`. */
  function Slice<T>(s: seq<T>, lo: int, hi: int): (r: seq<T>)
    ensures |r| <= |s|
    ensures 0 <= lo <= |s| && lo <= hi ==> r == s[lo..Min(hi, |s|)]
  {
    var i, j := SliceBound(lo, |s|), SliceBound(hi, |s|);
    if i < j then s[i..j] else []
  }

  /** `s[:limit] if limit else s`: a missing or zero limit keeps everything,
      a positive one keeps at most that many leading entries, a negative one
      drops that many entries from the end. */
  function Truncate<T>(s: seq<T>, limit: Option<int>): (r: seq<T>)
    ensures |r| <= |s| && r == s[..|r|]
    ensures limit == None || limit == Some(0) ==> r == s
    ensures limit.Some? && limit.value > 0 ==> |r| == Min(limit.value, |s|)
    ensures limit.Some? && limit.value < 0 ==> |r| == Max(0, |s| + limit.value)
  {
    if limit.Some? && limit.value != 0 then Slice(s, 0, limit.value) else s
  }
}
