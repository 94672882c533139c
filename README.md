# Word-frequency scripts, modelled in Dafny

This project models the counting core of two command-line scripts that compute
word statistics over text files.

- `scripts/plot_frequencies.py`, the chunked dictionary-word counter:
  - The words of each text are cut into consecutive blocks of `block_size` words.
  - Every block gets a record built with `all_occurrences`. The record is
    either one aggregate count of dictionary words or one count per
    dictionary entry.
  - Values are either raw counts or counts divided by the configured block
    size. This is `count_raw_freq` versus `count_relative_freq`.
  - With `--single-graph` all texts are first merged into one.
  - The `\w+` tokenizer of `get_dict_words` / `get_analyze_words` is modelled
    on a string.
- `scripts/wordcount.py`, the word-frequency tally:
  - `count_words` strips punctuation from every token (`strip_punctuation`)
    and optionally lower-cases it.
  - It counts every token in `total`, skips words on the ignore list and
    tallies the rest in a dictionary.
  - It reports `(count, word, count/total)` entries sorted in descending
    order, together with `uniques`, optionally truncated to `-w` entries.

Files:

- `common.dfy` (module `Common`): Python building blocks. These are `None`,
  `list.count`, flattening, `sum`, and slicing with Python's clamping and
  negative bounds.
- `order.dfy` (module `PyOrder`): Python's ordering of unicode strings and of
  `(count, word)` tuples. It also holds `sorted(..., reverse=True)` and the
  proof that the sorted list depends only on what is sorted.
- `plot_frequencies.dfy` (module `PlotFrequencies`): the chunked counter. Its
  functions are the pure parts (block size, `xrange`, blocks,
  `all_occurrences`, records, merge, tokenizer). The per-text loops of
  `count_raw_freq` and `count_relative_freq` are methods with loop
  invariants. They are proved to fill `freq` with exactly the series the
  functions describe.
- `wordcount.dfy` (module `WordCount`): the tally. `strip_punctuation` and
  the specification of the counter (`Tally`) are functions. `count_words` is
  a method whose loops update `total` and the `counter` dictionary step by
  step. It is proved to return exactly the `Results` of the specification.

Modelling choices:

- **Text input.** Texts are already-tokenized sequences of strings, and the
  ignore list is a sequence of strings. For `wordcount.py` a file is the
  sequence of its whitespace-separated tokens, line after line.
- **Unicode helpers.** `unicodedata.category` and `unicode.lower` are not
  interpreted. They are the function-typed fields `category` and `lower` of
  `WordCount.Normalizer`, and every property holds for every choice of them.
- **Byte strings.** `plot_frequencies.py` reads its files with plain `open`
  under Python 2, so it works on byte strings. There, `\w` is
  `[A-Za-z0-9_]` and `lower()` changes only `A`..`Z`. Both are modelled
  concretely.
- **Dictionaries.** The `analyze_words` dictionary is a sequence of
  `(name, words)` pairs with distinct names, in the dictionary's iteration
  order (`DistinctNames`). `CountRawFreq` and `CountRelativeFreq` require
  this, because a Python dictionary cannot hold a name twice. The order in
  which `counter.items()` yields its pairs is left open: `CounterItems`
  takes its keys in an arbitrary order. `PyOrder.SortedUnique` shows that
  the sorted report does not depend on that order.
- **Exact division.** Relative frequencies use exact real division instead
  of IEEE floats.

The model follows the code in these places, where its behaviour may be
unexpected:

- **The dictionary is a list, not a set.** The aggregate count sums
  `count[key]` over the dictionary list, so a word listed twice is counted
  twice (`AggregateOfConcatenation`). The aggregate is bounded by the block
  length only for a dictionary without repeats
  (`AggregateCountsDictionaryTokens`).
- **The empty word is falsy.** `all_occurrences(needles, haystack, "")`
  takes the aggregate branch, because `if word:` treats the empty string as
  false.
- **Block size is not restricted to positive values.** A zero or missing
  chunk size falls back to 5000. A negative chunk size is kept; `xrange`
  then yields nothing, so every text gets no blocks (`Blocks`). A chunk size
  outside the range of a native integer is the exception (see
  "## Left out").
- **Relative values divide by the configured size.** Every relative value
  is divided by the configured block size, even for a shorter last block
  (`ShortLastBlockExample`).
- **A negative word limit drops entries.** A negative `-w` limit drops that
  many entries from the end of the report (`Common.Truncate`), following
  Python's slicing.

## Model

| member | source | states |
|---|---|---|
| `PlotFrequencies.BlockSize` | scripts/plot_frequencies.py:85-88 | the block size is the chunk size when it is given and non-zero, otherwise the default 5000; it is never 0 |
| `PlotFrequencies.XRangeShape` | scripts/plot_frequencies.py:99 | `xrange(start, stop, b)` with `b > 0` yields `start + i*b` for each index `i` while below `stop`; it is empty iff `start >= stop`, and one more step passes `stop` |
| `PlotFrequencies.Blocks` | scripts/plot_frequencies.py:99 | a negative block size gives no blocks |
| `PlotFrequencies.BlockAt` | scripts/plot_frequencies.py:128 | block `i` is `words[i*b : min(i*b+b, len(words))]` and starts inside the word list |
| `PlotFrequencies.BlockCount` | scripts/plot_frequencies.py:128 | there are ceil(len(words)/b) blocks: the least `k` with `k*b >= len(words)` |
| `PlotFrequencies.BlockSizes` | scripts/plot_frequencies.py:99 | there are no blocks iff there are no words; every block but the last has exactly `b` words, and the last has 1 to `b` |
| `PlotFrequencies.BlocksPartition` | scripts/plot_frequencies.py:128 | the blocks, concatenated in order, give back exactly the word list |
| `PlotFrequencies.BlocksFrom` | scripts/plot_frequencies.py:128 | the blocks from index `k` on concatenate to the words from `k*b` on |
| `PlotFrequencies.FindWords` | scripts/plot_frequencies.py:60 | `re.findall(r'\w+', s)` returns non-empty matches made of word characters of `s`, which joined together hold exactly the word characters of `s` in order |
| `PlotFrequencies.FindWordsSplit` | scripts/plot_frequencies.py:60 | a non-word character splits the text: the matches of `a + c + b` are those of `a` followed by those of `b` |
| `PlotFrequencies.WordIsOneMatch` | scripts/plot_frequencies.py:60 | a non-empty run of word characters is exactly one match; with `FindWordsSplit` and the empty text giving no match, this fixes every match as a maximal run of word characters |
| `PlotFrequencies.GetDictWords` | scripts/plot_frequencies.py:55-64 | every dictionary word is non-empty and contains no upper-case letter |
| `PlotFrequencies.AllOccurrences` | scripts/plot_frequencies.py:139-147 | with a non-empty word, the result is the word's number of occurrences in the block, which is positive iff the word occurs and at most the block's length |
| `PlotFrequencies.AggregateOfConcatenation` | scripts/plot_frequencies.py:143-147 | the aggregate is additive over the dictionary list, so a word listed twice is counted twice |
| `PlotFrequencies.AggregateCountsDictionaryTokens` | scripts/plot_frequencies.py:143-147 | for a dictionary without repeats, the aggregate is the number of the block's words that are in the dictionary, hence at most the block's length |
| `PlotFrequencies.Vector` | scripts/plot_frequencies.py:132 | the per-word record has one entry per dictionary entry |
| `PlotFrequencies.Record` | scripts/plot_frequencies.py:129-132 | a record has one value in aggregate mode and one value per dictionary entry in per-word mode |
| `PlotFrequencies.RecordSum` | scripts/plot_frequencies.py:130-132 | when no dictionary word is empty, the per-word record of a block sums to the block's aggregate record |
| `PlotFrequencies.DictionaryRecordSum` | scripts/plot_frequencies.py:60 | for a dictionary read by `get_dict_words`, per-word records always sum to the aggregate record |
| `PlotFrequencies.RawSeries` | scripts/plot_frequencies.py:128-135 | a text gets one record per block |
| `PlotFrequencies.Relative` | scripts/plot_frequencies.py:101-103 | relative values keep the shape of the raw series: one record per block and one value per raw value |
| `PlotFrequencies.MergeWords` | scripts/plot_frequencies.py:94 | the single-graph merge concatenates the texts' word lists in order, and merging a single text leaves it unchanged |
| `PlotFrequencies.Analyzed` | scripts/plot_frequencies.py:122-125 | the texts the loop walks have distinct names, whether merged or not |
| `PlotFrequencies.CountRawFreq` | scripts/plot_frequencies.py:110-137 | `freq` has exactly one key per analysed text, and its value is that text's records, one per block in block order |
| `PlotFrequencies.TextRawFreq` | scripts/plot_frequencies.py:126-133 | the loop over one text's blocks appends the record of every block, in order |
| `PlotFrequencies.CountRelativeFreq` | scripts/plot_frequencies.py:81-108 | `freq` has exactly one key per analysed text, and its value is that text's raw series with every value divided by the configured block size |
| `PlotFrequencies.TextRelativeFreq` | scripts/plot_frequencies.py:97-104 | the loop over one text's blocks appends every block's record divided by the configured block size, in order |
| `PlotFrequencies.ShortLastBlockExample` | scripts/plot_frequencies.py:99-101 | five words with block size 2 give blocks of 2, 2 and 1 words; the relative value of the one-word last block is divided by 2, not 1 |
| `Common.Count` | scripts/plot_frequencies.py:145 | `haystack.count(word)` is at most the length and is positive iff the word occurs |
| `Common.CountIsMultiplicity` | scripts/plot_frequencies.py:143-145 | `haystack.count(word)` equals `Counter(haystack)[word]` |
| `Common.Slice` | scripts/plot_frequencies.py:99 | `words[x:x+b]` for `0 <= x <= len(words)` and `b >= 0` is `words[x : min(x+b, len(words))]` |
| `Common.SliceBound` | scripts/wordcount.py:70 | a slice bound is clamped to the list, and a negative bound counts from the end |
| `Common.Truncate` | scripts/wordcount.py:70 | `s[:n] if n else s` is a prefix of `s`: all of it for no limit or 0, `min(n, len)` entries for positive `n`, and `len + n` entries (at least 0) for negative `n` |
| `WordCount.StripPunctuation` | scripts/wordcount.py:17-21 | the result is no longer than the text and contains no character of a punctuation category |
| `WordCount.StripKeepsExactlyNonPunctuation` | scripts/wordcount.py:19-21 | each non-punctuation character is kept as many times as it occurs, and no punctuation character is kept |
| `WordCount.StripConcatenation` | scripts/wordcount.py:20-21 | stripping works character by character in order, so stripping a concatenation strips each part |
| `WordCount.StripWithoutPunctuation` | scripts/wordcount.py:20-21 | text without punctuation is left unchanged |
| `WordCount.StripIdempotent` | scripts/wordcount.py:17-21 | stripping twice is stripping once |
| `WordCount.StripAllPunctuation` | scripts/wordcount.py:20-21 | a token made only of punctuation strips to the empty word |
| `WordCount.NormalizeAll` | scripts/wordcount.py:46-48 | every token is normalised on its own: stripped, then lower-cased when `-c` is given |
| `WordCount.TallyCounts` | scripts/wordcount.py:46-60 | a word is a key of `counter` iff some token normalises to it and it is not ignored; its count is the number of such tokens, at least 1 |
| `WordCount.TallySum` | scripts/wordcount.py:50-60 | the counts add up to `total` minus the number of ignored tokens |
| `WordCount.PunctuationTokenCountsAsEmptyWord` | scripts/wordcount.py:46-60 | a token made only of punctuation is counted under the empty word unless the empty word is ignored (without `-c`) |
| `WordCount.RankedIsSortedPermutation` | scripts/wordcount.py:63-66 | the sorted list is non-increasing and holds each `(count, word)` pair of `counter` exactly once and nothing else |
| `WordCount.ResultEntry` | scripts/wordcount.py:53-63 | every reported word is counted and not ignored; its count is the number of tokens normalising to it, at least 1 |
| `WordCount.ResultFrequency` | scripts/wordcount.py:66 | the frequency of every reported entry is count/total and lies in (0, 1], so `total` is never 0 there |
| `WordCount.ResultsOrdered` | scripts/wordcount.py:66 | the report is in non-increasing `(count, word)` order and names each word at most once |
| `WordCount.ResultsLength` | scripts/wordcount.py:67-70 | the report is a prefix of the unlimited report, at most `uniques` long, with exactly the length the limit selects |
| `WordCount.TallyFiles` | scripts/wordcount.py:42-60 | after the loops over files and tokens, `total` is the number of tokens and `counter` is the tally of all of them |
| `WordCount.TallyTokens` | scripts/wordcount.py:44-60 | the loop over one file's tokens extends `total` and `counter` from the tokens seen before to those tokens plus this file's |
| `WordCount.CountWord` | scripts/wordcount.py:53-60 | an ignored word leaves `counter` unchanged; any other word's count goes up by one, starting at 1 |
| `WordCount.CounterItems` | scripts/wordcount.py:63 | the `(count, word)` list holds each pair of `counter` exactly once, in whatever order the dictionary yields them |
| `WordCount.CountWords` | scripts/wordcount.py:33-71 | `total` is the number of tokens, `uniques` the number of counted words before truncation, and `results` is exactly the specified report |
| `PyOrder.StrLeqTotal` | scripts/wordcount.py:66 | any two unicode strings are comparable |
| `PyOrder.StrLeqAntisymmetric` | scripts/wordcount.py:66 | strings that are each `<=` the other are equal |
| `PyOrder.StrLeqTransitive` | scripts/wordcount.py:66 | string `<=` is transitive |
| `PyOrder.Insert` | scripts/wordcount.py:66 | inserting into a non-increasing list keeps it non-increasing and adds exactly the new pair |
| `PyOrder.SortDescending` | scripts/wordcount.py:66 | `sorted(pairs, reverse=True)` is non-increasing and a permutation of its input |
| `PyOrder.SortedUnique` | scripts/wordcount.py:63-66 | two non-increasing lists with the same pairs are equal, so the report does not depend on the dictionary's iteration order |

## Left out

- `scripts/pos_and_sentence.py` is not part of this model. Its work is done by nltk's sentence splitter and tagger, and its statistics are floats.
- Argument parsing (`get_args`, the `argparse` set-up and `main` / `__main__` blocks) is left out. Its values become parameters: the chunk size, the flags, the word limit and the `-c` option.
- File I/O is left out:
  - `open` / `codecs.open`;
  - `check_files` and its `os.access` test;
  - `load_ignores`;
  - the reading of the dictionary and of the texts;
  - splitting the `--files` string at commas.

  Texts arrive as token sequences and the ignore list as a sequence of strings. The tokenizer applied to the read text is modelled (`FindWords`, `Lower`).
- Splitting `wordcount.py` lines into tokens with `line.split()` is left out. The token loop gets each file's tokens already split.
- `PlotFrequencies.Blocks`: does not model the `OverflowError` that Python 2's `xrange` raises when the chunk size does not fit a native C `long`, for example one above `sys.maxint`. The bound depends on the platform. The model treats every integer alike: a huge positive chunk size gives a single block, and a huge negative one gives none.
- Plotting with matplotlib (`plot`) and printing the report are left out: foreign libraries and output only.
- IEEE floating point is left out. `float(k)/total` and `x / float(block_size)` are exact real divisions.
- The Unicode tables are left out. `unicodedata.category` and `unicode.lower` are uninterpreted parameters. The Python 2 narrow-build detail that strings compare by UTF-16 code unit is not modelled: strings are compared by character.
- The dictionaries' iteration order is left out. The order of `analyze_words` is the input order. The merged name joins the names in that order. `counter.items()` may yield its pairs in any order.
- Python's exception behaviour (`raise e` after a failed read) is left out with the I/O.
