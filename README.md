# csvconvert transcript parser, modelled in Dafny

This project models `cmd/csvconvert` of asterisk-tts. The tool reads an
Asterisk sound-transcript file of `key: value` lines and writes a two-column
table with the header `index,english`. Some values span several lines: they
open with `"` or `[` after the `": "` separator, and they close on the first
later non-skipped line that ends with the paired closer (`"` or `]`).

The model follows the shape of the Go code:

- `matcher.dfy` (module `Matcher`) holds the pure byte searches:
  - the leftmost `": "`, which is `strings.SplitN(s, ": ", 2)`;
  - the leftmost `": "` followed by an opener, which replaces the
    `multiLineMatch` regexp and `multiLineMatcher`;
  - the opener-to-closer table;
  - `strings.Count` of one byte;
  - the parity test that decides whether a line opens a multi-line value.

  Lines are `seq<byte>`, because Go strings are byte strings.
- `transcript.dfy` (module `Transcript`) is the specification of the scan
  loop:
  - `State` holds the loop's variables (`line`, `ignore`,
    `multiLineActive`, `multiLineIndex`, `prevLines`,
    `multiLineSeparator`, `sounds` and `soundOrder`);
  - `Step` is one loop iteration;
  - `Run` folds `Step` over the lines;
  - `Parse` adds the end-of-input check and the reported counts.

  The `log.Fatal` exits become `Failure` values of `ParseError`.
- `converter.dfy` (module `Converter`) is the imperative program:
  - the class `Converter` keeps the loop variables as fields;
  - `ScanLine` updates them in place, statement for statement as in `main`;
  - the method `Convert` runs the loop over the input lines;
  - `WriteRecords` is the loop that hands rows to the CSV writer.

  Each method is proved equal to its specification function.
- `table.dfy` (module `Table`) defines the rows written, `Records`, and
  `ReadBack`, which reads the rows back into a map.
- `theorems.dfy` (module `Properties`) proves properties of whole
  conversions:
  - skipped lines are invisible;
  - single-line inputs give last-write-wins with repeated keys kept in
    the order;
  - a multi-line value is its lines joined by newlines;
  - the rows read back to the parsed map;
  - worked examples cover a quoted two-line value and a duplicated key.

These quirks of the code are kept, not corrected:

- A repeated key is appended to `soundOrder` again, at line 160 and at line
  98 for multi-line values. The output then holds one row per occurrence,
  each with the latest value (`Properties.DuplicateKey`,
  `Properties.OutputRows`).
- Blank and `;` lines are dropped everywhere, also inside a multi-line value,
  because the skip test at line 87 comes before the multi-line tests
  (`Properties.SkippedLineInvisible`).
- The opener is searched at the leftmost `": "` that is followed by `"` or
  `[`. The key/value split, however, cuts at the first `": "` of the line,
  which may come earlier (`Matcher.OpenerLineSplits`). `split[1][1:]` then
  drops exactly one byte of that remainder, whatever that byte is.
- After the opening line the first continuation line gets no leading newline
  when the accumulated text is empty. The closing line always does, so a
  value opened by a bare `"` and closed on the very next line starts with a
  newline (`Properties.QuotedValue`).
- The "Multiline already active" exit (lines 118-119) cannot be reached,
  because an active machine always returns at lines 92-115. `ScanLine`
  asserts this at that point.
- The header row is the fixed `index`,`english` (line 177).

## Model

| member | source | states |
|---|---|---|
| Matcher.FindSeparator | cmd/csvconvert/main.go:136 | the search for `": "` inside strings.SplitN; its contract is Matcher.FindSeparatorSpec: the leftmost separator at or after the start, None only when there is none |
| Matcher.SplitN | cmd/csvconvert/main.go:136 | strings.SplitN(s, ": ", 2); its contract is Matcher.SplitNSpec and Matcher.SplitJoin: None exactly without a separator, otherwise the unique cut at the first separator |
| Matcher.FindOpener | cmd/csvconvert/main.go:38-47 | the regexp search; its contract is Matcher.FindOpenerSpec: the leftmost `": "` followed by an opener, None only when there is none |
| Matcher.PairFrom | cmd/csvconvert/main.go:51-58 | the loop over the delimiter tables; its contract is Matcher.PairTable: `"` pairs with `"`, `[` with `]`, anything else with no match |
| Matcher.MultiLineMatcher | cmd/csvconvert/main.go:46-60 | multiLineMatcher; its contract is Matcher.MatcherSpec: a match exactly when the pattern occurs, reporting the leftmost opener and its closer |
| Matcher.Count | cmd/csvconvert/main.go:123-126 | strings.Count of one byte; its contract is Matcher.CountIsMultiplicity: the byte's multiplicity in the line |
| Matcher.OpensMultiLine | cmd/csvconvert/main.go:117-134 | the start test with its parity count; its contract is Matcher.OpensMultiLineSpec: the closer is returned exactly when the leftmost opener exists and the delimiter count is odd |
| Transcript.Record | cmd/csvconvert/main.go:159-160 | sounds[key] = value and the append to soundOrder, used by both recording sites (lines 97-98 and 159-160); stated through Transcript.CloseRecordsValue and Transcript.OrdinaryEntry |
| Transcript.Step | cmd/csvconvert/main.go:83-160 | one iteration of the scan loop, branch for branch; its contract is Transcript.StepInvariants, Transcript.FailsOnlyOnSplit and the transition lemmas SkipOnlyCounts, CloseRecordsValue, ContinueAccumulates, OpenStartsValue and OrdinaryEntry, and Converter.Converter.ScanLine is proved to follow it |
| Transcript.Run | cmd/csvconvert/main.go:82-161 | the loop over all lines, stopping at the first fatal error; its contract is Transcript.RunInvariants, Transcript.RunAppend and Transcript.RunSnoc |
| Matcher.FindSeparatorSpec | cmd/csvconvert/main.go:136 | the search returns the leftmost position of `": "` at or after its start, and None only when there is none |
| Matcher.SplitNSpec | cmd/csvconvert/main.go:136-140 | the split fails exactly when the line has no `": "`; otherwise line = key + `": "` + rest and the key contains no `": "` |
| Matcher.SplitJoin | cmd/csvconvert/main.go:136 | splitting k + `": "` + v gives back (k, v) whenever no separator starts inside k (join/split round trip) |
| Matcher.FindOpenerSpec | cmd/csvconvert/main.go:38-47 | the search returns the leftmost position of `": "` followed by `"` or `[`, and None only when there is none |
| Matcher.MatcherSpec | cmd/csvconvert/main.go:46-60 | multiLineMatcher succeeds exactly when the pattern occurs somewhere in the line, and then reports the opener of the leftmost occurrence with its paired closer |
| Matcher.PairTable | cmd/csvconvert/main.go:51-58 | the lookup over multiLineStartChars/multiLineEndChars maps `"` to `"`, `[` to `]` and anything else to no match |
| Matcher.CountIsMultiplicity | cmd/csvconvert/main.go:123-126 | strings.Count of one byte equals that byte's multiplicity in the line |
| Matcher.OpenerLineSplits | cmd/csvconvert/main.go:117-136 | every line the matcher accepts has a separator, and the first separator is at or before the matched one |
| Matcher.OpensMultiLineSpec | cmd/csvconvert/main.go:117-134 | a line opens a multi-line value with closer c exactly when the leftmost opener pattern exists, c is its paired closer, and the opener's count plus the closer's (when different) is odd |
| Transcript.Skipped | cmd/csvconvert/main.go:87-88 | the number of skipped lines never exceeds the number of lines |
| Transcript.StepInvariants | cmd/csvconvert/main.go:82-161 | one iteration counts the line, counts it as ignored exactly when skipped, only extends the order list by at most one key, never loses a map key, fails only on a non-skipped line while idle, and keeps the invariant (idle means no leftovers; active means a key and a real closer; order keys = map keys) |
| Transcript.RunInvariants | cmd/csvconvert/main.go:82-161 | over the whole scan: line = number of lines, ignore = number of skipped lines, the order only grows, the invariant is kept, and the scan never reports the end-of-input error |
| Transcript.Parse | cmd/csvconvert/main.go:163-167 | a successful parse reports every line, the skipped lines as ignored, a key set equal to the set of keys in the order list, and the distinct count as the map's size |
| Transcript.SkipOnlyCounts | cmd/csvconvert/main.go:86-90 | an empty or `;` line, in any state, increments line and ignore and changes nothing else |
| Transcript.CloseRecordsValue | cmd/csvconvert/main.go:92-105 | while active, a line ending in the closer stores accumulated + newline + line-without-last-byte under the key, appends the key, and resets the machine to idle |
| Transcript.ContinueAccumulates | cmd/csvconvert/main.go:108-115 | while active, any other line is appended verbatim, newline-separated only when text has accumulated, and nothing is recorded |
| Transcript.FailsOnlyOnSplit | cmd/csvconvert/main.go:136-143 | a line fails exactly when it is scanned while idle, is not skipped, and has no separator or an empty side; the missing separator fails with that line's number |
| Transcript.OpenStartsValue | cmd/csvconvert/main.go:117-153 | an idle line that opens a value enters multi-line mode with the closer, remembers the key, keeps the remainder minus its first byte, and records nothing |
| Transcript.OrdinaryEntry | cmd/csvconvert/main.go:155-160 | any other idle line stores its value under its key (overwriting) and appends the key even when it is already listed |
| Transcript.UnterminatedExactly | cmd/csvconvert/main.go:163-165 | the parse fails at end of input exactly when the scan succeeded and left the machine active |
| Transcript.RunAppend | cmd/csvconvert/main.go:82-84 | scanning a + b is scanning a, then scanning b from the state a left, stopping at a's failure |
| Transcript.RunSnoc | cmd/csvconvert/main.go:82-84 | scanning one more line after a prefix is one more iteration on the prefix's state |
| Table.Records | cmd/csvconvert/main.go:177-185 | the rows are the header `index`,`english` followed, for each key of the order list in turn, by the key and its map value (empty when absent) |
| Converter.Converter.constructor | cmd/csvconvert/main.go:72-79 | every loop variable starts at Go's zero value |
| Converter.Converter.ScanLine | cmd/csvconvert/main.go:83-160 | updating the fields in place yields exactly the state, or the fatal error, of one Step from the old fields |
| Converter.Convert | cmd/csvconvert/main.go:72-167 | the loop over the input lines followed by the end-of-input check returns exactly Parse of the lines |
| Converter.WriteRecords | cmd/csvconvert/main.go:177-185 | the rows handed to the writer, in order, are exactly Records of the order list and map |
| Converter.ConvertToTable | cmd/csvconvert/main.go:72-185 | the conversion succeeds exactly when Parse does, fails with Parse's error, and otherwise writes Records of the parsed order list and map |
| Properties.StepShift | cmd/csvconvert/main.go:83-160 | the line and ignore counters never influence a transition: shifted counters give the same outcome with the same shift |
| Properties.RunShift | cmd/csvconvert/main.go:82-161 | the same over any sequence of lines |
| Properties.SkippedLineInvisible | cmd/csvconvert/main.go:86-90 | inserting a blank or comment line anywhere, even inside a multi-line value, keeps success, order, map and distinct count, and adds one to the line and ignored counts |
| Properties.Entries | cmd/csvconvert/main.go:155-160 | on an input of skipped and single-line entry lines, the entries plus the skipped lines account for every line |
| Properties.ApplyLast | cmd/csvconvert/main.go:159 | after a series of map writes, a key holds the value of its last write |
| Properties.PlainStep | cmd/csvconvert/main.go:86-160 | on an idle machine, a skipped line only counts and an entry line records its split |
| Properties.RunPlain | cmd/csvconvert/main.go:82-161 | an idle machine scanning skipped and entry lines ends idle, with the order extended by every entry key in input order and the map updated by the entries in turn |
| Properties.PlainLinesTable | cmd/csvconvert/main.go:155-160 | such an input always parses; the order list is every entry key in input order, repeats included; each key maps to its last entry's value; ignored plus entries equals the line count |
| Properties.RunContinues | cmd/csvconvert/main.go:108-115 | while active, non-skipped lines not ending in the closer accumulate as the newline-joined parts, and nothing is recorded |
| Properties.OpenThenContinue | cmd/csvconvert/main.go:108-153 | the opening line plus continuation lines leave the machine active with the key, the closer and the joined text of the remainder-minus-one-byte and the continuations |
| Properties.CloseAfter | cmd/csvconvert/main.go:92-105 | after any prefix that leaves a value open, a line ending in the closer records it and returns to idle |
| Properties.MultiLineValue | cmd/csvconvert/main.go:92-153 | opening, continuation and closing lines record the key once, with its value the joined text, a newline, and the closing line without its closer |
| Properties.MultiLineValueJoined | cmd/csvconvert/main.go:97-113 | when anything accumulated, the recorded value is exactly all parts joined by single newlines |
| Properties.ReadBackRecords | cmd/csvconvert/main.go:177-185 | reading the data rows back gives exactly the keys of the order list, each with its looked-up value |
| Properties.OutputRows | cmd/csvconvert/main.go:177-185 | after a successful parse every row after the header is an order key with its latest value, and reading the rows back reproduces the parsed map |
| Properties.QuotedOpens | cmd/csvconvert/main.go:117-136 | a line `k: "a` with no colon or quote in k and no quote in a splits at its separator and opens a value closed by `"` |
| Properties.QuotedValue | cmd/csvconvert/main.go:92-153 | the lines `k: "a` and `b"` parse to the single entry k with value a, newline, b (both quotes dropped), 2 lines, 0 ignored, 1 distinct |
| Properties.PlainEntry | cmd/csvconvert/main.go:136-160 | a line `k: v` with no delimiters and no colon in k is an ordinary entry that splits into (k, v) |
| Properties.DuplicateKey | cmd/csvconvert/main.go:155-160 | `k: x` then `k: y` parse to order [k, k] and map {k: y}, with one distinct key |

## Left out

- File opening, including the create-exclusive open of the output (main.go lines 64-70 and 170-173), is operating-system I/O. The input is taken as a sequence of lines.
- The argument-count check and the table-length check in `init` (lines 24-31) are process plumbing. The two delimiter tables have equal length by construction.
- Regexp compilation (lines 32-41) is replaced by the explicit leftmost search `FindOpener`.
- `bufio.Scanner` line splitting (lines 81-84), with its `\r` stripping, its token-size limit and its unchecked scan error, is library behaviour. The model starts from already split lines.
- `encoding/csv` quoting, `Flush` and the writer's errors (lines 175-192) belong to a library that is not shown. Only the sequence of rows passed to `w.Write` is modelled, and `ReadBack` reads those rows without quoting.
- The `log.Println`/`log.Printf` diagnostics have no effect on the result and are left out. The counts of line 167 are the `lines`, `ignored` and `distinct` fields of `Summary`.
- The texts of the `log.Fatal` messages are not modelled. The error value keeps only the kind of failure and, for a missing separator, the line number.
- cmd/pollytts/main.go is not part of this model: the speech-synthesis call, audio encoding and CSV reading are network and file I/O.
- Determinism (the same input always gives the same output) holds because the model is made of functions, so no lemma states it.
