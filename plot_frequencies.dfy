/** The chunked dictionary-word counter of `scripts/plot_frequencies.py`: each
    text is cut into consecutive blocks of `block_size` words, and every block
    gets a record counting the dictionary's words in it, either as one
    aggregate number or as one number per dictionary entry, raw or divided by
    the configured block size. */
module PlotFrequencies {
  import opened Common

  /** Size of a block in words when no chunk size is configured. */
  const DefaultBlockSize: int := 5000

  /** A text to analyse: its name and its words. */
  type Text = (string, seq<string>)

  /** `chunk_size if chunk_size else default_block_size`: a missing or zero
      chunk size falls back to the default; any other value is kept as it
      is, negative ones included. */
  function BlockSize(chunkSize: Option<int>): (b: int)
    ensures b != 0
    ensures chunkSize.Some? && chunkSize.value != 0 ==> b == chunkSize.value
    ensures chunkSize == None || chunkSize == Some(0) ==> b == DefaultBlockSize
  {
    if chunkSize.Some? && chunkSize.value != 0 then chunkSize.value else DefaultBlockSize
  }

  // ---------------------------------------------------------------------------
  // Tokenizing: re.findall(r'\w+', text.lower()) on a Python 2 byte string

  /** `\w` without the UNICODE or LOCALE flag: an ASCII letter, digit or `_`. */
  predicate IsWordChar(c: char)
  {
    'a' <= c <= 'z' || 'A' <= c <= 'Z' || '0' <= c <= '9' || c == '_'
  }

  /** `str.lower()` on a byte string: only `A`..`Z` change. */
  function LowerChar(c: char): (r: char)
    ensures !('A' <= r <= 'Z')
    ensures IsWordChar(r) == IsWordChar(c)
  {
    if 'A' <= c <= 'Z' then (c as int + 32) as char else c
  }

  function Lower(s: string): (r: string)
    ensures |r| == |s|
    ensures forall i :: 0 <= i < |s| ==> r[i] == LowerChar(s[i])
  {
    seq(|s|, i requires 0 <= i < |s| => LowerChar(s[i]))
  }

  /** The characters of `s` that `\w` matches, in order. */
  function WordChars(s: string): string
  {
    if s == [] then [] else (if IsWordChar(s[0]) then [s[0]] else []) + WordChars(s[1..])
  }

  /** The length of the run of word characters that starts `s`. */
  function RunLength(s: string): (k: nat)
    ensures k <= |s|
    ensures forall i :: 0 <= i < k ==> IsWordChar(s[i])
    ensures k < |s| ==> !IsWordChar(s[k])
  {
    if s == [] || !IsWordChar(s[0]) then 0 else 1 + RunLength(s[1..])
  }

  lemma {:induction false} WordCharsOfRun(s: string, k: nat)
    requires k <= |s|
    requires forall i :: 0 <= i < k ==> IsWordChar(s[i])
    ensures WordChars(s) == s[..k] + WordChars(s[k..])
  {
    if k > 0 {
      WordCharsOfRun(s[1..], k - 1);
      assert s[1..][k - 1..] == s[k..];
      assert s[..k] == [s[0]] + s[1..][..k - 1];
    }
  }

  /** `w` could be a match in `s`: non-empty, and made of word characters
      that occur in `s`. */
  predicate WordOf(w: string, s: string)
  {
    w != [] && forall i :: 0 <= i < |w| ==> IsWordChar(w[i]) && w[i] in s
  }

  /** `re.findall(r'\w+', s)`: the maximal runs of word characters, in order.
      No match is empty, every match consists of word characters of `s`, and
      together they hold exactly the word characters of `s`. Where the
      matches split is pinned down by `FindWordsSplit` and `WordIsOneMatch`. */
  function FindWords(s: string): (ws: seq<string>)
    ensures forall w :: w in ws ==> WordOf(w, s)
    ensures Flatten(ws) == WordChars(s)
    decreases |s|
  {
    if s == [] then []
    else
      var k := RunLength(s);
      if k == 0 then
        var rest := FindWords(s[1..]);
        MatchesAfterSkip(s, rest);
        rest
      else
        var rest := FindWords(s[k..]);
        MatchesAfterRun(s, k, rest);
        [s[..k]] + rest
  }

  /** The matches after a leading non-word character are the matches of the
      whole text. */
  lemma MatchesAfterSkip(s: string, rest: seq<string>)
    requires s != [] && !IsWordChar(s[0])
    requires forall w :: w in rest ==> WordOf(w, s[1..])
    requires Flatten(rest) == WordChars(s[1..])
    ensures forall w :: w in rest ==> WordOf(w, s)
    ensures Flatten(rest) == WordChars(s)
  {
    assert WordChars(s) == [] + WordChars(s[1..]);
    forall w | w in rest ensures WordOf(w, s) {
      assert WordOf(w, s[1..]);
      forall i | 0 <= i < |w| ensures w[i] in s {
        assert w[i] in s[1..];
      }
    }
  }

  /** A leading run of `k` word characters followed by the matches of the
      rest gives the matches of the whole text. */
  lemma MatchesAfterRun(s: string, k: nat, rest: seq<string>)
    requires 0 < k <= |s| && forall i :: 0 <= i < k ==> IsWordChar(s[i])
    requires forall w :: w in rest ==> WordOf(w, s[k..])
    requires Flatten(rest) == WordChars(s[k..])
    ensures forall w :: w in [s[..k]] + rest ==> WordOf(w, s)
    ensures Flatten([s[..k]] + rest) == WordChars(s)
  {
    WordCharsOfRun(s, k);
    assert ([s[..k]] + rest)[1..] == rest;
    forall w | w in rest ensures WordOf(w, s) {
      assert WordOf(w, s[k..]);
    }
  }

  /** A non-word character splits the text: the matches of `a + [c] + b` are
      those of `a` followed by those of `b`, and no match spans `c`. */
  lemma {:induction false} FindWordsSplit(a: string, c: char, b: string)
    requires !IsWordChar(c)
    ensures FindWords(a + [c] + b) == FindWords(a) + FindWords(b)
    decreases |a|
  {
    var s := a + [c] + b;
    if a == [] {
      assert s[1..] == b;
    } else if !IsWordChar(a[0]) {
      assert s[1..] == a[1..] + [c] + b;
      FindWordsSplit(a[1..], c, b);
    } else {
      RunLengthBeforeNonWord(a, [c] + b);
      assert s == a + ([c] + b);
      var k := RunLength(a);
      assert s[..k] == a[..k];
      assert s[k..] == a[k..] + [c] + b;
      FindWordsSplit(a[k..], c, b);
    }
  }

  /** A run of word characters ends where a non-word character follows. */
  lemma {:induction false} RunLengthBeforeNonWord(a: string, t: string)
    requires t != [] && !IsWordChar(t[0])
    ensures RunLength(a + t) == RunLength(a)
  {
    if a != [] {
      assert (a + t)[1..] == a[1..] + t;
      RunLengthBeforeNonWord(a[1..], t);
    }
  }

  /** A non-empty text made of word characters only is one single match. */
  lemma WordIsOneMatch(w: string)
    requires w != [] && forall i :: 0 <= i < |w| ==> IsWordChar(w[i])
    ensures FindWords(w) == [w]
  {
    RunLengthOfWord(w);
    assert w[..|w|] == w;
    assert w[|w|..] == [];
  }

  lemma {:induction false} RunLengthOfWord(w: string)
    requires forall i :: 0 <= i < |w| ==> IsWordChar(w[i])
    ensures RunLength(w) == |w|
  {
    if w != [] {
      RunLengthOfWord(w[1..]);
    }
  }

  /** `get_dict_words` on the text of the dictionary file: every dictionary
      word is non-empty and in lower case. */
  function GetDictWords(text: string): (words: seq<string>)
    ensures forall w :: w in words ==> w != [] && forall i :: 0 <= i < |w| ==> !('A' <= w[i] <= 'Z')
  {
    var lowered := Lower(text);
    assert forall c :: c in lowered ==> !('A' <= c <= 'Z');
    FindWords(lowered)
  }

  // ---------------------------------------------------------------------------
  // Blocks: [words[x:x+b] for x in xrange(0, len(words), b)]

  /** Python 2's `xrange(start, stop, step)`, as the list of values it yields. */
  function XRange(start: int, stop: int, step: int): (xs: seq<int>)
    requires step != 0
    ensures step < 0 && start <= stop ==> xs == []
    decreases if step > 0 then stop - start else start - stop
  {
    if step > 0 && start < stop then [start] + XRange(start + step, stop, step)
    else if step < 0 && start > stop then [start] + XRange(start + step, stop, step)
    else []
  }

  /** With a positive step, `xrange` yields `start, start + step, ...` while
      below `stop`, and the value after the last one is at least `stop`. */
  lemma {:induction false} XRangeShape(start: int, stop: int, step: int)
    requires step > 0
    ensures var xs := XRange(start, stop, step);
      && (xs != [] <==> start < stop)
      && (forall i :: 0 <= i < |xs| ==> xs[i] == start + i * step < stop)
      && (xs != [] ==> xs[|xs| - 1] + step >= stop)
    decreases stop - start
  {
    if start < stop {
      XRangeShape(start + step, stop, step);
      var xs, ys := XRange(start, stop, step), XRange(start + step, stop, step);
      assert xs == [start] + ys;
      forall i | 0 <= i < |xs| ensures xs[i] == start + i * step < stop {
        if i > 0 {
          assert xs[i] == ys[i - 1];
          assert start + step + (i - 1) * step == start + i * step;
        }
      }
    }
  }

  /** The blocks of `words` for block size `b`; a negative `b` makes
      `xrange` empty, so there are no blocks. */
  function Blocks(words: seq<string>, b: int): (blocks: seq<seq<string>>)
    requires b != 0
    ensures b < 0 ==> blocks == []
  {
    var starts := XRange(0, |words|, b);
    seq(|starts|, i requires 0 <= i < |starts| => Slice(words, starts[i], starts[i] + b))
  }

  /** Block `i` is `words[i*b .. min(i*b + b, len(words))]`, starting inside
      the list. */
  lemma BlockAt(words: seq<string>, b: int, i: int)
    requires b > 0
    requires 0 <= i < |Blocks(words, b)|
    ensures i * b < |words|
    ensures Blocks(words, b)[i] == words[i * b .. Min(i * b + b, |words|)]
  {
    var x := i * b;
    assert 0 <= x < |words| && Blocks(words, b)[i] == Slice(words, x, x + b) by {
      XRangeAt(|words|, b, i);
    }
  }

  /** Value `i` of `xrange(0, stop, b)` is `i * b`, which lies in `0 .. stop`. */
  lemma XRangeAt(stop: int, b: int, i: int)
    requires b > 0 && 0 <= i < |XRange(0, stop, b)|
    ensures XRange(0, stop, b)[i] == i * b
    ensures 0 <= i * b < stop
  {
    XRangeShape(0, stop, b);
    MultiplyMonotone(0, i, b);
  }

  /** There are ceil(len(words) / b) blocks: the least `k` with `k * b` at
      least the number of words. */
  lemma BlockCount(words: seq<string>, b: int)
    requires b > 0
    ensures var k := |Blocks(words, b)|;
      && (k - 1) * b < |words| <= k * b
      && k == (|words| + b - 1) / b
  {
    var n, k := |words|, |Blocks(words, b)|;
    XRangeShape(0, n, b);
    if k > 0 {
      MultiplySucc(k - 1, b);
    }
    CeilingDivision(n, b, k);
  }

  lemma CeilingDivision(n: nat, b: int, k: int)
    requires b > 0 && (k - 1) * b < n <= k * b
    ensures k == (n + b - 1) / b
  {
    var q, r := (n + b - 1) / b, (n + b - 1) % b;
    assert n + b - 1 == q * b + r && 0 <= r < b;
    assert (q - 1) * b == q * b - b;
    MultiplyCancel(q - 1, k, b);
    MultiplyCancel(k - 1, q, b);
  }

  /** One more block of `b` words: `(k + 1) * b == k * b + b`. */
  lemma MultiplySucc(k: int, b: int)
    ensures (k + 1) * b == k * b + b
  {
  }

  lemma MultiplyCancel(x: int, y: int, b: int)
    requires b > 0 && x * b < y * b
    ensures x < y
  {
    if x >= y {
      MultiplyMonotone(y, x, b);
    }
  }

  lemma MultiplyMonotone(x: int, y: int, b: int)
    requires x <= y && b >= 0
    ensures x * b <= y * b
  {
    assert y * b - x * b == (y - x) * b;
  }

  /** Every block but the last holds exactly `b` words, the last holds 1 to
      `b` words, and an empty word list gives no blocks. */
  lemma BlockSizes(words: seq<string>, b: int)
    requires b > 0
    ensures var blocks := Blocks(words, b);
      && (blocks == [] <==> words == [])
      && (forall i :: 0 <= i < |blocks| - 1 ==> |blocks[i]| == b)
      && (blocks != [] ==> 1 <= |blocks[|blocks| - 1]| <= b)
  {
    var blocks := Blocks(words, b);
    XRangeShape(0, |words|, b);
    forall i | 0 <= i < |blocks| - 1 ensures |blocks[i]| == b {
      BlockAt(words, b, i);
      BlockAt(words, b, i + 1);
      MultiplySucc(i, b);
      MultiplyMonotone(0, i, b);
    }
    if blocks != [] {
      BlockAt(words, b, |blocks| - 1);
    }
  }

  /** The blocks partition the word list: read in order, they give back
      exactly `words`, with no gap and no overlap. */
  lemma BlocksPartition(words: seq<string>, b: int)
    requires b > 0
    ensures Flatten(Blocks(words, b)) == words
  {
    BlocksFrom(words, b, 0);
    assert Blocks(words, b)[0..] == Blocks(words, b);
  }

  lemma {:induction false} BlocksFrom(words: seq<string>, b: int, k: nat)
    requires b > 0
    requires k <= |Blocks(words, b)|
    ensures Flatten(Blocks(words, b)[k..]) == words[Min(k * b, |words|)..]
    decreases |Blocks(words, b)| - k
  {
    var blocks := Blocks(words, b);
    if k == |blocks| {
      BlockCount(words, b);
      assert blocks[k..] == [];
    } else {
      MultiplyMonotone(0, k, b);
      var lo := k * b;
      MultiplySucc(k, b);
      var hi := Min(lo + b, |words|);
      BlockAt(words, b, k);
      BlocksFrom(words, b, k + 1);
      FlattenFrom(blocks, k, words, lo, hi);
    }
  }

  /** If block `k` is `words[lo..hi]` and the blocks after it flatten to
      `words[hi..]`, then the blocks from `k` on flatten to `words[lo..]`. */
  lemma FlattenFrom(blocks: seq<seq<string>>, k: nat, words: seq<string>, lo: nat, hi: nat)
    requires k < |blocks| && lo <= hi <= |words|
    requires blocks[k] == words[lo..hi] && Flatten(blocks[k + 1..]) == words[hi..]
    ensures Flatten(blocks[k..]) == words[lo..]
  {
    assert blocks[k..][1..] == blocks[k + 1..];
    assert words[lo..] == words[lo..hi] + words[hi..];
  }

  // ---------------------------------------------------------------------------
  // all_occurrences and the per-block records

  /** Sum over `needles`, in order and with repeats, of each needle's count
      in the `Counter` `counts`. */
  function SumOfCounts(needles: seq<string>, counts: multiset<string>): nat
  {
    if needles == [] then 0 else counts[needles[0]] + SumOfCounts(needles[1..], counts)
  }

  /** `all_occurrences(needles, haystack, word)`. A non-empty `word` gives
      `haystack.count(word)`, which is the word's count in
      `Counter(haystack)`; a missing or empty word (both falsy) gives the
      sum over `needles` of their counts in `Counter(haystack)`. */
  function AllOccurrences(needles: seq<string>, haystack: seq<string>, word: Option<string>): (r: nat)
    ensures word.Some? && word.value != "" ==> r == multiset(haystack)[word.value] && r <= |haystack|
    ensures word.Some? && word.value != "" ==> (r > 0 <==> word.value in haystack)
  {
    var count := multiset(haystack);
    if word.Some? && word.value != "" then
      CountIsMultiplicity(haystack, word.value);
      Count(haystack, word.value)
    else
      SumOfCounts(needles, count)
  }

  lemma {:induction false} SumOfCountsAppend(a: seq<string>, b: seq<string>, counts: multiset<string>)
    ensures SumOfCounts(a + b, counts) == SumOfCounts(a, counts) + SumOfCounts(b, counts)
  {
    if a == [] {
      assert a + b == b;
    } else {
      assert (a + b)[1..] == a[1..] + b;
      SumOfCountsAppend(a[1..], b, counts);
    }
  }

  /** The aggregate adds up the needle list entry by entry: a dictionary word
      listed twice is counted twice. */
  lemma AggregateOfConcatenation(a: seq<string>, b: seq<string>, haystack: seq<string>)
    ensures AllOccurrences(a + b, haystack, None)
         == AllOccurrences(a, haystack, None) + AllOccurrences(b, haystack, None)
  {
    SumOfCountsAppend(a, b, multiset(haystack));
  }

  lemma {:induction false} SumOfCountsUnion(needles: seq<string>, m1: multiset<string>, m2: multiset<string>)
    ensures SumOfCounts(needles, m1 + m2) == SumOfCounts(needles, m1) + SumOfCounts(needles, m2)
  {
    if needles != [] {
      SumOfCountsUnion(needles[1..], m1, m2);
    }
  }

  lemma {:induction false} SumOfCountsSingleton(needles: seq<string>, t: string)
    ensures SumOfCounts(needles, multiset{t}) == Count(needles, t)
  {
    if needles != [] {
      SumOfCountsSingleton(needles[1..], t);
    }
  }

  lemma {:induction false} SumOfCountsOfNothing(needles: seq<string>)
    ensures SumOfCounts(needles, multiset{}) == 0
  {
    if needles != [] {
      SumOfCountsOfNothing(needles[1..]);
    }
  }

  /** Number of words of `haystack` that occur in `needles`. */
  function DictionaryTokens(haystack: seq<string>, needles: seq<string>): (r: nat)
    ensures r <= |haystack|
  {
    if haystack == [] then 0
    else (if haystack[0] in needles then 1 else 0) + DictionaryTokens(haystack[1..], needles)
  }

  predicate Distinct(s: seq<string>)
  {
    forall i, j :: 0 <= i < j < |s| ==> s[i] != s[j]
  }

  lemma {:induction false} CountInDistinct(s: seq<string>, t: string)
    requires Distinct(s)
    ensures Count(s, t) == if t in s then 1 else 0
  {
    if s != [] {
      CountInDistinct(s[1..], t);
      if s[0] == t {
        assert t !in s[1..];
      }
    }
  }

  /** With a dictionary that lists no word twice, the aggregate is the
      number of words of the block that are dictionary words, so it is at
      most the block's length. */
  lemma {:induction false} AggregateCountsDictionaryTokens(needles: seq<string>, haystack: seq<string>)
    requires Distinct(needles)
    ensures AllOccurrences(needles, haystack, None) == DictionaryTokens(haystack, needles)
    ensures AllOccurrences(needles, haystack, None) <= |haystack|
  {
    if haystack == [] {
      SumOfCountsOfNothing(needles);
    } else {
      var t, rest := haystack[0], haystack[1..];
      AggregateCountsDictionaryTokens(needles, rest);
      assert haystack == [t] + rest;
      assert multiset(haystack) == multiset{t} + multiset(rest);
      SumOfCountsUnion(needles, multiset{t}, multiset(rest));
      SumOfCountsSingleton(needles, t);
      CountInDistinct(needles, t);
      assert AllOccurrences(needles, haystack, None) == SumOfCounts(needles, multiset(haystack));
      assert AllOccurrences(needles, rest, None) == SumOfCounts(needles, multiset(rest));
    }
  }

  /** `[all_occurrences(needles, group, f) for f in fs]`. */
  function Vector(needles: seq<string>, fs: seq<string>, group: seq<string>): (r: seq<nat>)
    ensures |r| == |fs|
  {
    seq(|fs|, j requires 0 <= j < |fs| => AllOccurrences(needles, group, Some(fs[j])))
  }

  lemma {:induction false} VectorSum(needles: seq<string>, fs: seq<string>, group: seq<string>)
    requires forall f :: f in fs ==> f != ""
    ensures Sum(Vector(needles, fs, group)) == SumOfCounts(fs, multiset(group))
  {
    if fs != [] {
      var v := Vector(needles, fs, group);
      assert v[1..] == Vector(needles, fs[1..], group);
      assert fs[0] in fs;
      assert v[0] == multiset(group)[fs[0]];
      assert forall f :: f in fs[1..] ==> f in fs;
      VectorSum(needles, fs[1..], group);
    }
  }

  /** The record of one block: `[all_occurrences(dict, group)]`, or one
      entry per dictionary entry, in dictionary order. */
  function Record(dictWords: seq<string>, group: seq<string>, individual: bool): (r: seq<nat>)
    ensures |r| == if individual then |dictWords| else 1
  {
    if !individual then [AllOccurrences(dictWords, group, None)]
    else Vector(dictWords, dictWords, group)
  }

  /** When no dictionary word is empty, the per-word record of a block sums
      to its aggregate record. */
  lemma RecordSum(dictWords: seq<string>, group: seq<string>)
    requires forall w :: w in dictWords ==> w != ""
    ensures Sum(Record(dictWords, group, true)) == Record(dictWords, group, false)[0]
  {
    VectorSum(dictWords, dictWords, group);
  }

  /** A dictionary read by `get_dict_words` never has an empty word, so its
      per-word records always sum to the aggregate ones. */
  lemma DictionaryRecordSum(dictText: string, group: seq<string>)
    ensures var dictWords := GetDictWords(dictText);
      Sum(Record(dictWords, group, true)) == Record(dictWords, group, false)[0]
  {
    RecordSum(GetDictWords(dictText), group);
  }

  /** The records of one text, one per block, in block order. */
  function RawSeries(dictWords: seq<string>, words: seq<string>, individual: bool, b: int): (r: seq<seq<nat>>)
    requires b != 0
    ensures |r| == |Blocks(words, b)|
  {
    var blocks := Blocks(words, b);
    seq(|blocks|, i requires 0 <= i < |blocks| => Record(dictWords, blocks[i], individual))
  }

  /** `[v / float(b) for v in record]`, with exact division. */
  function RelativeRecord(record: seq<nat>, b: int): (r: seq<real>)
    requires b != 0
    ensures |r| == |record|
  {
    seq(|record|, j requires 0 <= j < |record| => record[j] as real / b as real)
  }

  /** Every value of a series divided by the configured block size `b`. */
  function Relative(series: seq<seq<nat>>, b: int): (r: seq<seq<real>>)
    requires b != 0
    ensures |r| == |series|
    ensures forall i :: 0 <= i < |r| ==> |r[i]| == |series[i]|
  {
    seq(|series|, i requires 0 <= i < |series| => RelativeRecord(series[i], b))
  }

  // ---------------------------------------------------------------------------
  // Texts and the single-graph merge

  /** `sep.join(parts)`. */
  function Join(parts: seq<string>, sep: string): string
  {
    if parts == [] then "" else if |parts| == 1 then parts[0] else parts[0] + sep + Join(parts[1..], sep)
  }

  function Names(texts: seq<Text>): (r: seq<string>)
    ensures |r| == |texts|
  {
    seq(|texts|, i requires 0 <= i < |texts| => texts[i].0)
  }

  function WordLists(texts: seq<Text>): (r: seq<seq<string>>)
    ensures |r| == |texts|
  {
    seq(|texts|, i requires 0 <= i < |texts| => texts[i].1)
  }

  /** The single-graph merge: one text named by joining all names with
      `", "`, whose words are all texts' words, text after text. */
  function Merge(texts: seq<Text>): Text
  {
    (Join(Names(texts), ", "), Flatten(WordLists(texts)))
  }

  /** Merging a list of texts concatenates their word lists, and merging a
      single text leaves it as it is. */
  lemma MergeWords(a: seq<Text>, b: seq<Text>, t: Text)
    ensures Merge(a + b).1 == Merge(a).1 + Merge(b).1
    ensures Merge([t]) == t
  {
    assert WordLists(a + b) == WordLists(a) + WordLists(b);
    FlattenAppend(WordLists(a), WordLists(b));
    assert WordLists([t]) == [t.1];
    assert Names([t]) == [t.0];
    assert Flatten([t.1]) == t.1;
    assert Merge([t]).1 == Flatten(WordLists([t]));
    assert Flatten([t.1]) == t.1 + Flatten([]);
  }

  predicate DistinctNames(texts: seq<Text>)
  {
    forall i, j :: 0 <= i < j < |texts| ==> texts[i].0 != texts[j].0
  }

  /** The texts the counting loop walks: all of them, or their merge. */
  function Analyzed(texts: seq<Text>, isSingle: bool): (r: seq<Text>)
    ensures DistinctNames(texts) ==> DistinctNames(r)
  {
    if isSingle then [Merge(texts)] else texts
  }

  // ---------------------------------------------------------------------------
  // count_raw_freq and count_relative_freq

  /** `count_raw_freq`: one entry per analysed text, holding the records of
      its blocks in block order. */
  method CountRawFreq(dictWords: seq<string>, analyzeWords: seq<Text>, isSingle: bool,
                      isIndividual: bool, chunkSize: Option<int>)
    returns (freq: map<string, seq<seq<nat>>>)
    requires DistinctNames(analyzeWords)
    ensures var texts := Analyzed(analyzeWords, isSingle);
      && freq.Keys == (set i | 0 <= i < |texts| :: texts[i].0)
      && forall i :: 0 <= i < |texts| ==>
           freq[texts[i].0] == RawSeries(dictWords, texts[i].1, isIndividual, BlockSize(chunkSize))
  {
    var blockSize := BlockSize(chunkSize);
    var texts := Analyzed(analyzeWords, isSingle);
    freq := map[];
    for i := 0 to |texts|
      invariant freq.Keys == set k | 0 <= k < i :: texts[k].0
      invariant forall k :: 0 <= k < i ==>
                  freq[texts[k].0] == RawSeries(dictWords, texts[k].1, isIndividual, blockSize)
    {
      var filename, words := texts[i].0, texts[i].1;
      var uniteFreq := TextRawFreq(dictWords, words, isIndividual, blockSize);
      freq := freq[filename := uniteFreq];
    }
  }

  /** The loop of `count_raw_freq` over the blocks of one text: one record
      per block, in block order. */
  method TextRawFreq(dictWords: seq<string>, words: seq<string>, isIndividual: bool, blockSize: int)
    returns (uniteFreq: seq<seq<nat>>)
    requires blockSize != 0
    ensures uniteFreq == RawSeries(dictWords, words, isIndividual, blockSize)
  {
    var groups := Blocks(words, blockSize);
    uniteFreq := [];
    for g := 0 to |groups|
      invariant |uniteFreq| == g
      invariant forall k :: 0 <= k < g ==> uniteFreq[k] == Record(dictWords, groups[k], isIndividual)
    {
      if !isIndividual {
        uniteFreq := uniteFreq + [[AllOccurrences(dictWords, groups[g], None)]];
      } else {
        uniteFreq := uniteFreq + [Vector(dictWords, dictWords, groups[g])];
      }
    }
  }

  /** `count_relative_freq`: like `count_raw_freq`, with every value divided
      by the configured block size, also for a shorter last block. */
  method CountRelativeFreq(dictWords: seq<string>, analyzeWords: seq<Text>, isSingle: bool,
                           isIndividual: bool, chunkSize: Option<int>)
    returns (freq: map<string, seq<seq<real>>>)
    requires DistinctNames(analyzeWords)
    ensures var texts, b := Analyzed(analyzeWords, isSingle), BlockSize(chunkSize);
      && freq.Keys == (set i | 0 <= i < |texts| :: texts[i].0)
      && forall i :: 0 <= i < |texts| ==>
           freq[texts[i].0] == Relative(RawSeries(dictWords, texts[i].1, isIndividual, b), b)
  {
    var blockSize := BlockSize(chunkSize);
    var texts := Analyzed(analyzeWords, isSingle);
    freq := map[];
    for i := 0 to |texts|
      invariant freq.Keys == set k | 0 <= k < i :: texts[k].0
      invariant forall k :: 0 <= k < i ==>
                  freq[texts[k].0] == Relative(RawSeries(dictWords, texts[k].1, isIndividual, blockSize), blockSize)
    {
      var filename, words := texts[i].0, texts[i].1;
      var uniteFreq := TextRelativeFreq(dictWords, words, isIndividual, blockSize);
      freq := freq[filename := uniteFreq];
    }
  }

  /** The loop of `count_relative_freq` over the blocks of one text: one
      record per block, in block order, every value divided by the
      configured block size. */
  method TextRelativeFreq(dictWords: seq<string>, words: seq<string>, isIndividual: bool, blockSize: int)
    returns (uniteFreq: seq<seq<real>>)
    requires blockSize != 0
    ensures uniteFreq == Relative(RawSeries(dictWords, words, isIndividual, blockSize), blockSize)
  {
    var groups := Blocks(words, blockSize);
    uniteFreq := [];
    for g := 0 to |groups|
      invariant |uniteFreq| == g
      invariant forall k :: 0 <= k < g ==>
                  uniteFreq[k] == RelativeRecord(Record(dictWords, groups[k], isIndividual), blockSize)
    {
      if !isIndividual {
        uniteFreq := uniteFreq + [[AllOccurrences(dictWords, groups[g], None) as real / blockSize as real]];
      } else {
        uniteFreq := uniteFreq + [RelativeRecord(Vector(dictWords, dictWords, groups[g]), blockSize)];
      }
    }
  }

  // ---------------------------------------------------------------------------
  // Worked examples

  /** Five words, block size 2: blocks `[a b] [a c] [a]`, one `a` in each;
      the relative value of the one-word last block is still 1/2. */
  lemma ShortLastBlockExample()
    ensures RawSeries(["a"], ["a", "b", "a", "c", "a"], false, 2) == [[1], [1], [1]]
    ensures Relative(RawSeries(["a"], ["a", "b", "a", "c", "a"], false, 2), 2) == [[0.5], [0.5], [0.5]]
  {
    var words := ["a", "b", "a", "c", "a"];
    assert XRange(0, 5, 2) == [0, 2, 4];
    assert Slice(words, 0, 2) == ["a", "b"];
    assert Slice(words, 2, 4) == ["a", "c"];
    assert Slice(words, 4, 6) == ["a"];
    assert Blocks(words, 2) == [["a", "b"], ["a", "c"], ["a"]];
    forall block | block in [["a", "b"], ["a", "c"], ["a"]]
      ensures AllOccurrences(["a"], block, None) == 1
    {
      assert multiset(block)["a"] == 1;
      assert SumOfCounts(["a"], multiset(block)) == 1;
      assert AllOccurrences(["a"], block, None) == SumOfCounts(["a"], multiset(block));
    }
    assert RawSeries(["a"], words, false, 2) == [[1], [1], [1]];
    assert RelativeRecord([1], 2) == [0.5];
    assert multiset(["a", "b"])["a"] == 1;
    assert multiset(["a", "c"])["a"] == 1;
    assert multiset(["a"])["a"] == 1;
  }
}
