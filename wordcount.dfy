/** The word-frequency tally of `scripts/wordcount.py`: every
    whitespace-separated token of the input files is stripped of punctuation
    and, optionally, lower-cased; `total` counts every token, words on the
    ignore list are skipped, the others are tallied in a dictionary, and the
    tally is reported as `(count, word, count/total)` entries sorted in
    descending order, possibly truncated. */
module WordCount {
  import opened Common
  import opened PyOrder

  /** Unicode general categories, as `unicodedata.category` names them. */
  datatype Category =
    | Lu | Ll | Lt | Lm | Lo            // letters
    | Mn | Mc | Me                      // marks
    | Nd | Nl | No                      // numbers
    | Pc | Pd | Ps | Pe | Pi | Pf | Po  // punctuation
    | Sm | Sc | Sk | So                 // symbols
    | Zs | Zl | Zp                      // separators
    | Cc | Cf | Cs | Co | Cn            // other

  /** The categories `strip_punctuation` removes. */
  predicate IsPunctuation(cat: Category)
  {
    cat in {Pc, Pd, Pe, Pf, Pi, Po, Ps}
  }

  /** How tokens are normalised. The Unicode tables are not modelled:
      `category` stands for `unicodedata.category` and `lower` for
      `unicode.lower`; `caseInsensitive` is the `-c` option. */
  datatype Normalizer = Normalizer(category: char -> Category, lower: string -> string, caseInsensitive: bool)

  // ---------------------------------------------------------------------------
  // strip_punctuation

  /** `strip_punctuation(text)`: the characters of `text` whose category is
      not a punctuation category, in their original order. */
  function StripPunctuation(text: string, category: char -> Category): (r: string)
    ensures |r| <= |text|
    ensures forall i :: 0 <= i < |r| ==> !IsPunctuation(category(r[i]))
  {
    if text == [] then []
    else (if IsPunctuation(category(text[0])) then [] else [text[0]]) + StripPunctuation(text[1..], category)
  }

  /** Stripping works character by character: it keeps every character that
      is not punctuation, as many times as it occurs, and no other. */
  lemma {:induction false} StripKeepsExactlyNonPunctuation(text: string, category: char -> Category)
    ensures forall c :: multiset(StripPunctuation(text, category))[c]
                     == if IsPunctuation(category(c)) then 0 else multiset(text)[c]
  {
    if text != [] {
      StripKeepsExactlyNonPunctuation(text[1..], category);
      assert text == [text[0]] + text[1..];
    }
  }

  /** Stripping a concatenation strips each part, so order is kept. */
  lemma {:induction false} StripConcatenation(a: string, b: string, category: char -> Category)
    ensures StripPunctuation(a + b, category) == StripPunctuation(a, category) + StripPunctuation(b, category)
  {
    if a == [] {
      assert a + b == b;
    } else {
      assert (a + b)[1..] == a[1..] + b;
      StripConcatenation(a[1..], b, category);
    }
  }

  /** Text without punctuation is left as it is. */
  lemma {:induction false} StripWithoutPunctuation(text: string, category: char -> Category)
    requires forall i :: 0 <= i < |text| ==> !IsPunctuation(category(text[i]))
    ensures StripPunctuation(text, category) == text
  {
    if text != [] {
      StripWithoutPunctuation(text[1..], category);
      assert text == [text[0]] + text[1..];
    }
  }

  /** Stripping twice is stripping once. */
  lemma StripIdempotent(text: string, category: char -> Category)
    ensures StripPunctuation(StripPunctuation(text, category), category) == StripPunctuation(text, category)
  {
    StripWithoutPunctuation(StripPunctuation(text, category), category);
  }

  /** A token made only of punctuation strips to the empty word. */
  lemma {:induction false} StripAllPunctuation(text: string, category: char -> Category)
    requires forall i :: 0 <= i < |text| ==> IsPunctuation(category(text[i]))
    ensures StripPunctuation(text, category) == ""
  {
    if text != [] {
      StripAllPunctuation(text[1..], category);
    }
  }

  // ---------------------------------------------------------------------------
  // The tally

  /** One token as it is counted: stripped, then lower-cased under `-c`. */
  function Normalize(token: string, norm: Normalizer): string
  {
    var word := StripPunctuation(token, norm.category);
    if norm.caseInsensitive then norm.lower(word) else word
  }

  /** The normalised tokens, in order. */
  function NormalizeAll(tokens: seq<string>, norm: Normalizer): (words: seq<string>)
    ensures |words| == |tokens|
    ensures forall i :: 0 <= i < |tokens| ==> words[i] == Normalize(tokens[i], norm)
  {
    seq(|tokens|, i requires 0 <= i < |tokens| => Normalize(tokens[i], norm))
  }

  /** One pass of the loop body on `counter`: an ignored word is skipped,
      any other word's count goes up by one, starting from 1. */
  function Bump(counter: map<string, nat>, word: string, ignoreList: seq<string>): map<string, nat>
  {
    if word in ignoreList then counter
    else counter[word := if word in counter then counter[word] + 1 else 1]
  }

  /** The `counter` dictionary after the loop has seen `tokens`. */
  function Tally(tokens: seq<string>, ignoreList: seq<string>, norm: Normalizer): map<string, nat>
  {
    if tokens == [] then map[]
    else Bump(Tally(tokens[..|tokens| - 1], ignoreList, norm), Normalize(tokens[|tokens| - 1], norm), ignoreList)
  }

  /** How many of `tokens` normalise to a word on the ignore list. */
  function IgnoredCount(tokens: seq<string>, ignoreList: seq<string>, norm: Normalizer): (r: nat)
    ensures r <= |tokens|
  {
    if tokens == [] then 0
    else IgnoredCount(tokens[..|tokens| - 1], ignoreList, norm)
         + (if Normalize(tokens[|tokens| - 1], norm) in ignoreList then 1 else 0)
  }

  /** The tally holds, for each word that is not ignored, the number of
      tokens that normalise to it; ignored words never become keys, and
      every key has a count of at least one. */
  lemma {:induction false} TallyCounts(tokens: seq<string>, ignoreList: seq<string>, norm: Normalizer)
    ensures var counter, words := Tally(tokens, ignoreList, norm), NormalizeAll(tokens, norm);
      && (forall w :: w in counter <==> w in words && w !in ignoreList)
      && (forall w :: w in counter ==> counter[w] == multiset(words)[w] >= 1)
  {
    if tokens != [] {
      var init, last := tokens[..|tokens| - 1], tokens[|tokens| - 1];
      TallyCounts(init, ignoreList, norm);
      var words := NormalizeAll(tokens, norm);
      assert words == NormalizeAll(init, norm) + [Normalize(last, norm)];
    }
  }

  /** The sum of a dictionary's values. */
  ghost function MapSum(m: map<string, nat>): nat
    decreases |m|
  {
    if m == map[] then 0
    else
      var k := Pick(m);
      assert |m - {k}| < |m| by { assert (m - {k}).Keys == m.Keys - {k}; }
      m[k] + MapSum(m - {k})
  }

  /** Some key of a non-empty dictionary. */
  ghost function Pick(m: map<string, nat>): (k: string)
    requires m != map[]
    ensures k in m
  {
    var k :| k in m; k
  }

  /** The sum does not depend on which key is taken out first. */
  lemma {:induction false} MapSumRemove(m: map<string, nat>, k: string)
    requires k in m
    ensures MapSum(m) == m[k] + MapSum(m - {k})
    decreases |m|
  {
    var j := Pick(m);
    if j != k {
      assert (m - {j}).Keys == m.Keys - {j};
      assert (m - {k}).Keys == m.Keys - {k};
      MapSumRemove(m - {j}, k);
      MapSumRemove(m - {k}, j);
      assert m - {j} - {k} == m - {k} - {j};
    }
  }

  lemma BumpSum(m: map<string, nat>, word: string, ignoreList: seq<string>)
    ensures MapSum(Bump(m, word, ignoreList)) == MapSum(m) + if word in ignoreList then 0 else 1
  {
    if word !in ignoreList {
      var m' := Bump(m, word, ignoreList);
      MapSumRemove(m', word);
      assert m' - {word} == m - {word};
      if word in m {
        MapSumRemove(m, word);
      } else {
        assert m - {word} == m;
      }
    }
  }

  /** The counts add up to `total` minus the ignored tokens. */
  lemma {:induction false} TallySum(tokens: seq<string>, ignoreList: seq<string>, norm: Normalizer)
    ensures MapSum(Tally(tokens, ignoreList, norm)) == |tokens| - IgnoredCount(tokens, ignoreList, norm)
  {
    if tokens != [] {
      var init := tokens[..|tokens| - 1];
      TallySum(init, ignoreList, norm);
      BumpSum(Tally(init, ignoreList, norm), Normalize(tokens[|tokens| - 1], norm), ignoreList);
    }
  }

  /** A token made only of punctuation is counted under the empty word,
      unless the empty word is on the ignore list. */
  lemma PunctuationTokenCountsAsEmptyWord(tokens: seq<string>, ignoreList: seq<string>, norm: Normalizer, i: int)
    requires 0 <= i < |tokens| && !norm.caseInsensitive && "" !in ignoreList
    requires forall j :: 0 <= j < |tokens[i]| ==> IsPunctuation(norm.category(tokens[i][j]))
    ensures "" in Tally(tokens, ignoreList, norm)
  {
    StripAllPunctuation(tokens[i], norm.category);
    TallyCounts(tokens, ignoreList, norm);
    assert NormalizeAll(tokens, norm)[i] == "";
  }

  // ---------------------------------------------------------------------------
  // Ranking

  /** The `(count, word)` pairs of a dictionary, in some order. */
  ghost function Items(m: map<string, nat>): (s: seq<Pair>)
    decreases |m|
  {
    if m == map[] then []
    else
      var k := Pick(m);
      assert |m - {k}| < |m| by { assert (m - {k}).Keys == m.Keys - {k}; }
      [(m[k], k)] + Items(m - {k})
  }

  /** Each `(count, word)` pair of the dictionary occurs once among the
      items, and nothing else does. */
  lemma {:induction false} ItemsExactly(m: map<string, nat>)
    ensures forall p :: multiset(Items(m))[p] == if p.1 in m && m[p.1] == p.0 then 1 else 0
    decreases |m|
  {
    if m != map[] {
      var k := Pick(m);
      assert (m - {k}).Keys == m.Keys - {k};
      ItemsExactly(m - {k});
    }
  }

  lemma {:induction false} ItemsCount(m: map<string, nat>)
    ensures |Items(m)| == |m|
    decreases |m|
  {
    if m != map[] {
      var k := Pick(m);
      assert (m - {k}).Keys == m.Keys - {k};
      ItemsCount(m - {k});
    }
  }

  /** `sorted([(v, k) for (k, v) in counter.items()], reverse=True)`. The
      dictionary's iteration order is left open; the result does not depend
      on it (see `SortedUnique`). */
  ghost function Ranked(counter: map<string, nat>): seq<Pair>
  {
    SortDescending(Items(counter))
  }

  /** The ranking is in non-increasing order and holds every `(count, word)`
      pair of the dictionary exactly once, and nothing else. */
  lemma RankedIsSortedPermutation(counter: map<string, nat>)
    ensures NonIncreasing(Ranked(counter))
    ensures |Ranked(counter)| == |counter|
    ensures forall p :: multiset(Ranked(counter))[p] == if p.1 in counter && counter[p.1] == p.0 then 1 else 0
  {
    ItemsExactly(counter);
    ItemsCount(counter);
    assert |Ranked(counter)| == |multiset(Ranked(counter))| == |multiset(Items(counter))|;
  }

  /** One line of the report: `(count, word, float(count)/total)`. */
  datatype Entry = Entry(count: int, word: string, frequency: real)

  /** `[(k, v, float(k)/total) for k, v in ranked]`, with exact division. */
  function WithFrequencies(ranked: seq<Pair>, total: nat): (r: seq<Entry>)
    requires total > 0 || ranked == []
    ensures |r| == |ranked|
  {
    seq(|ranked|, i requires 0 <= i < |ranked| =>
      Entry(ranked[i].0, ranked[i].1, ranked[i].0 as real / total as real))
  }

  /** The `results` that `count_words` returns for the tokens of its
      input files. */
  ghost function Results(tokens: seq<string>, ignoreList: seq<string>, norm: Normalizer, limit: Option<int>): seq<Entry>
  {
    var counter := Tally(tokens, ignoreList, norm);
    assert tokens == [] ==> counter == map[];
    RankedIsSortedPermutation(counter);
    Truncate(WithFrequencies(Ranked(counter), |tokens|), limit)
  }

  /** One reported entry: its word is counted and not ignored, and its
      count is the number of tokens normalising to that word. */
  lemma ResultEntry(tokens: seq<string>, ignoreList: seq<string>, norm: Normalizer, limit: Option<int>, i: int)
    requires 0 <= i < |Results(tokens, ignoreList, norm, limit)|
    ensures var e, counter := Results(tokens, ignoreList, norm, limit)[i], Tally(tokens, ignoreList, norm);
      && e.word !in ignoreList
      && e.word in counter
      && e.count == counter[e.word] == multiset(NormalizeAll(tokens, norm))[e.word] >= 1
  {
    var counter, words := Tally(tokens, ignoreList, norm), NormalizeAll(tokens, norm);
    var ranked := Ranked(counter);
    RankedIsSortedPermutation(counter);
    TallyCounts(tokens, ignoreList, norm);
    var rated := WithFrequencies(ranked, |tokens|);
    var e := Results(tokens, ignoreList, norm, limit)[i];
    assert e == rated[i];
    assert ranked[i] in multiset(ranked);
    assert e.word in counter && e.count == counter[e.word];
  }

  /** The relative frequency of a reported entry is count/total, which lies
      in (0, 1]: no division by zero can occur. */
  lemma ResultFrequency(tokens: seq<string>, ignoreList: seq<string>, norm: Normalizer, limit: Option<int>, i: int)
    requires 0 <= i < |Results(tokens, ignoreList, norm, limit)|
    ensures var e := Results(tokens, ignoreList, norm, limit)[i];
      && e.frequency == e.count as real / |tokens| as real
      && 0.0 < e.frequency <= 1.0
  {
    ResultEntry(tokens, ignoreList, norm, limit, i);
    var e := Results(tokens, ignoreList, norm, limit)[i];
    var words := NormalizeAll(tokens, norm);
    CountIsMultiplicity(words, e.word);
    FrequencyBounds(e.count, |tokens|);
  }

  lemma FrequencyBounds(count: int, total: int)
    requires 1 <= count <= total
    ensures 0.0 < count as real / total as real <= 1.0
  {
  }

  /** The report is in non-increasing order of `(count, word)` and names
      each word at most once. */
  lemma ResultsOrdered(tokens: seq<string>, ignoreList: seq<string>, norm: Normalizer, limit: Option<int>)
    ensures var results := Results(tokens, ignoreList, norm, limit);
      forall i, j :: 0 <= i < j < |results| ==>
        && PairLeq((results[j].count, results[j].word), (results[i].count, results[i].word))
        && results[i].word != results[j].word
  {
    var counter := Tally(tokens, ignoreList, norm);
    var ranked := Ranked(counter);
    RankedIsSortedPermutation(counter);
    var results := Results(tokens, ignoreList, norm, limit);
    var rated := WithFrequencies(ranked, |tokens|);
    forall i, j | 0 <= i < j < |results|
      ensures PairLeq((results[j].count, results[j].word), (results[i].count, results[i].word))
      ensures results[i].word != results[j].word
    {
      assert results[i] == rated[i] && results[j] == rated[j];
      NoRepeatedWord(counter, ranked, i, j);
    }
  }

  /** A list holding each pair of a dictionary once names no word twice. */
  lemma NoRepeatedWord(counter: map<string, nat>, s: seq<Pair>, i: int, j: int)
    requires forall p :: multiset(s)[p] == if p.1 in counter && counter[p.1] == p.0 then 1 else 0
    requires 0 <= i < j < |s|
    ensures s[i].1 != s[j].1
  {
    var p := s[j];
    assert s[i] in multiset(s) && p in multiset(s);
    assert s == s[..j] + [p] + s[j + 1..];
    assert multiset(s)[p] == multiset(s[..j])[p] + 1 + multiset(s[j + 1..])[p];
    assert s[i] in s[..j];
    assert s[i] != p;
  }

  /** The report is the head of the full ranking: all of it without a
      limit (or with 0), its first min(limit, uniques) entries with a
      positive limit, and all but its last -limit entries with a negative
      one. */
  lemma ResultsLength(tokens: seq<string>, ignoreList: seq<string>, norm: Normalizer, limit: Option<int>)
    ensures var results, uniques := Results(tokens, ignoreList, norm, limit), |Tally(tokens, ignoreList, norm)|;
      var n := |results|;
      && n <= uniques
      && results == Results(tokens, ignoreList, norm, None)[..n]
      && (limit == None || limit == Some(0) ==> n == uniques)
      && (limit.Some? && limit.value > 0 ==> n == Min(limit.value, uniques))
      && (limit.Some? && limit.value < 0 ==> n == Max(0, uniques + limit.value))
  {
    var counter := Tally(tokens, ignoreList, norm);
    var full := Results(tokens, ignoreList, norm, None);
    assert |full| == |counter| && Results(tokens, ignoreList, norm, limit) == Truncate(full, limit) by {
      RankedIsSortedPermutation(counter);
    }
  }

  /** Seeing one more token bumps its normalised word. */
  lemma TallyAppendOne(tokens: seq<string>, token: string, ignoreList: seq<string>, norm: Normalizer)
    ensures Tally(tokens + [token], ignoreList, norm) == Bump(Tally(tokens, ignoreList, norm), Normalize(token, norm), ignoreList)
  {
    assert (tokens + [token])[..|tokens|] == tokens;
  }

  /** Seeing token `j` of a file after the tokens before it. */
  lemma TallyNext(seen: seq<string>, tokens: seq<string>, j: int, ignoreList: seq<string>, norm: Normalizer)
    requires 0 <= j < |tokens|
    ensures Tally(seen + tokens[..j + 1], ignoreList, norm)
         == Bump(Tally(seen + tokens[..j], ignoreList, norm), Normalize(tokens[j], norm), ignoreList)
  {
    assert seen + tokens[..j + 1] == (seen + tokens[..j]) + [tokens[j]];
    TallyAppendOne(seen + tokens[..j], tokens[j], ignoreList, norm);
  }

  /** The tokens of the first `i + 1` files are those of the first `i`
      followed by those of file `i`. */
  lemma FlattenSnoc(files: seq<seq<string>>, i: int)
    requires 0 <= i < |files|
    ensures Flatten(files[..i + 1]) == Flatten(files[..i]) + files[i]
  {
    assert files[..i + 1] == files[..i] + [files[i]];
    FlattenAppend(files[..i], [files[i]]);
    assert Flatten([files[i]]) == files[i];
  }

  /** The loops of `count_words` over the files and their tokens: the
      `counter` dictionary and the number of tokens seen. */
  method TallyFiles(files: seq<seq<string>>, ignoreList: seq<string>, norm: Normalizer)
    returns (counter: map<string, nat>, total: nat)
    ensures total == |Flatten(files)|
    ensures counter == Tally(Flatten(files), ignoreList, norm)
  {
    counter := map[];
    total := 0;
    for i := 0 to |files|
      invariant total == |Flatten(files[..i])|
      invariant counter == Tally(Flatten(files[..i]), ignoreList, norm)
    {
      counter, total := TallyTokens(files[i], ignoreList, norm, counter, total, Flatten(files[..i]));
      FlattenSnoc(files, i);
    }
    assert files[..|files|] == files;
  }

  /** The loop of `count_words` over the tokens of one file: with `counter`
      and `total` describing the tokens `seen` so far, it leaves them
      describing `seen + tokens`. */
  method TallyTokens(tokens: seq<string>, ignoreList: seq<string>, norm: Normalizer,
                     counter0: map<string, nat>, total0: nat, ghost seen: seq<string>)
    returns (counter: map<string, nat>, total: nat)
    requires total0 == |seen| && counter0 == Tally(seen, ignoreList, norm)
    ensures total == |seen + tokens|
    ensures counter == Tally(seen + tokens, ignoreList, norm)
  {
    counter, total := counter0, total0;
    assert seen + tokens[..0] == seen;
    for j := 0 to |tokens|
      invariant total == |seen + tokens[..j]|
      invariant counter == Tally(seen + tokens[..j], ignoreList, norm)
    {
      var currentWord := StripPunctuation(tokens[j], norm.category);
      if norm.caseInsensitive {
        currentWord := norm.lower(currentWord);
      }
      total := total + 1;
      counter := CountWord(counter, currentWord, ignoreList);
      TallyNext(seen, tokens, j, ignoreList, norm);
    }
    assert tokens[..|tokens|] == tokens;
  }

  /** The end of the token loop's body: an ignored word is skipped, any
      other word's count goes up by one, starting from 1. */
  method CountWord(counter0: map<string, nat>, word: string, ignoreList: seq<string>)
    returns (counter: map<string, nat>)
    ensures counter == Bump(counter0, word, ignoreList)
  {
    counter := counter0;
    if word in ignoreList {
      return;
    }
    if word in counter {
      counter := counter[word := counter[word] + 1];
    } else {
      counter := counter[word := 1];
    }
  }

  /** `[(v, k) for (k, v) in counter.items()]`, in whatever order the
      dictionary yields its keys: the same entries as `Items(counter)`. */
  method CounterItems(counter: map<string, nat>) returns (freq: seq<Pair>)
    ensures multiset(freq) == multiset(Items(counter))
  {
    freq := [];
    var rest := counter;
    while rest != map[]
      invariant rest.Keys <= counter.Keys
      invariant forall w :: w in rest ==> rest[w] == counter[w]
      invariant forall p :: multiset(freq)[p] == if p.1 in counter && p.1 !in rest && counter[p.1] == p.0 then 1 else 0
      decreases |rest|
    {
      var w :| w in rest;
      freq := freq + [(rest[w], w)];
      assert (rest - {w}).Keys == rest.Keys - {w};
      rest := rest - {w};
    }
    ItemsExactly(counter);
  }

  /** `count_words` on the tokens of each input file, in file order (the
      tokens of a file are those of its lines, line after line). Returns the
      report, `total` and `uniques`. */
  method CountWords(files: seq<seq<string>>, ignoreList: seq<string>, norm: Normalizer, limit: Option<int>)
    returns (results: seq<Entry>, total: nat, uniques: nat)
    ensures total == |Flatten(files)|
    ensures uniques == |Tally(Flatten(files), ignoreList, norm)|
    ensures results == Results(Flatten(files), ignoreList, norm, limit)
  {
    var counter;
    counter, total := TallyFiles(files, ignoreList, norm);
    var freq := CounterItems(counter);
    var sortedFreq := SortDescending(freq);
    SortedUnique(sortedFreq, Ranked(counter));
    RankedIsSortedPermutation(counter);
    uniques := |sortedFreq|;
    assert total == 0 ==> counter == map[];
    var rated := WithFrequencies(sortedFreq, total);
    results := Truncate(rated, limit);
  }
}
