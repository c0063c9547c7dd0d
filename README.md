# lazy-log: the embedded-JSON bracket scanner, in Dafny

lazy-log reads a log file line by line and prints the lines that match a
search pattern. Its one piece of real logic is in `utils/utils.go`. It finds
the JSON object embedded in a line and checks that its brackets nest. It
slices the line at the first `{` (`ExtractJsonFromString`). Then it walks the
slice (`extractJsonFromSubString`) with a stack of open `{`/`[` and an
accumulator of consumed characters. It stops at the first character that
opens nothing while the stack is empty, or at the end of the input. A closer
that pops the other kind of opener fails at once. Running out of input with
openers still open fails too. The accepted text goes to `json.Indent`. The
command layer (`cmd/analyze.go`, repeated in `file/file.go`) checks the
command line into an `AnalyzeCommand` record and prints each matching line.

The project has five modules:

- `Wrappers` (wrappers.dfy) holds `Option`.
- `Utils` (utils.dfy) models utils/utils.go. `ExtractJsonFromSubString` is a
  method with a `while` loop, an explicit `seq<char>` stack and a
  `seq<string>` accumulator of one-character strings, as in the Go code. It is
  proved against `ScanFrom`, a recursive function that takes the same steps.
  `ScanFrom` is then related to `Nest`, an independent reference. `Nest` gives
  the openers still waiting after a prefix is read, or `None` once a closer
  breaks the nesting. The declarative predicates `StopsAt`, `MismatchAt` and
  `RunsOut` are built on `Nest` and say exactly when each outcome happens.
- `UtilsExamples` (utils_examples.dfy) states the cases of
  utils/utils_test.go, including the start/end offsets the tests expect.
- `Cmd` (analyze.dfy) models `BuildAnalyzeCommand` and `analyzeLine` as pure
  functions. The cobra command, the flag lookups, the `search` value and the
  regular-expression engine are parameters.
- `File` (file.dfy) states how file/file.go treats the cases of
  file/file_test.go. file/file.go:20-43 is a line-for-line copy of
  cmd/analyze.go:20-43, so `Cmd.BuildAnalyzeCommand` models both. Only "No
  filepath argument" is stated the way that test runs it. The three
  one-argument tests exit at the `pattern` lookup, and
  `File.UndeclaredPatternFlagExits` covers them.

Parameters stand for the foreign calls:

- `json.Indent` is `indent: string -> Indented`, which may fail.
- `regexp.Match` is `regexMatch: (string, string) -> Match`, which may fail.
- The results of `GetStringSlice("pattern")` and `GetBool("json")` are
  `Lookup` values, which may be errors.

`utils.Check` and `ExitGracefully` print a message and exit the process. They
appear only as terminal outcomes: `Outcome.Exit`, `Built.Exited` and
`LineOutput.Exit`. The Go `(value, error)` pairs are modelled like this:

- `Outcome.Json` is a success, `Outcome.Error` carries the error message.
- `Built.Returned` pairs the record with an optional error.

Where the code and its tests disagree, the model follows the code:

- cmd/analyze_test.go:52-93 expects an empty search to succeed.
  cmd/analyze.go:33-35 returns the zero record and "Search text is empty".
  `Cmd.EmptySearchIsAnError` states what the code does.
- utils/utils_test.go:133 reads four results (the JSON, start, end and the
  error). utils/utils.go:81 returns two. The offsets the tests expect are
  stated as facts about the scanned slice: the start is the index of the
  first `{`, and the end is that index plus the length of the accepted text.
- file/file_test.go:19-32 declares only the `search` flag. The `pattern`
  lookup at file/file.go:25-26 then fails, so a call with one argument exits
  through `Check` before the search check is reached.
  `File.UndeclaredPatternFlagExits` states this.

Some facts hold on every path without their own lemma. Dafny checks that
every `stack[|stack| - 1]` in `ExtractJsonFromSubString` and `ScanFrom` is in
range. This holds because the empty-stack return (utils/utils.go:51-53) comes
before the pops at lines 57-58 and 64-65. The loop invariants of
`ExtractJsonFromSubString` also state three things:
- the stack holds only `{` and `[`;
- the stack is exactly `Nest([], substring[..i])`, with no stop point passed;
- the accumulator holds the characters of `substring[..i]`.

The facts proved about `Nest` (`NestDepth`, `NestOpenersOnly`) therefore hold
of the loop's own stack.

## Model

| member | source | states |
|---|---|---|
| Utils.ExtractJsonFromSubString | utils/utils.go:40-79 | The loop returns the report of the scan. Its invariants keep the stack equal to the reference nesting of the consumed prefix, holding only openers, and the accumulator equal to the consumed characters. Pops happen only on a non-empty stack. That is the pretty-printing of the accepted prefix, "Invalid JSON input, opening [ is not closed" or "Invalid JSON input, opening { is not closed" for the mismatched kind, or "String is not JSON, not completed". |
| Utils.ExtractJsonFromString | utils/utils.go:81-88 | Requires a `{` in the line (the slice at index -1 panics otherwise). The result is the report of scanning the line from its first `{`. |
| Utils.IndexOf | utils/utils.go:82 | `strings.Index` for one character: -1 exactly when the character is absent, otherwise an index holding it with no earlier occurrence. |
| Utils.SliceToString | utils/utils.go:23-25 | `strings.Join(slice, "")`: on one-character strings, the result has one character per element, in order. |
| Utils.SliceToStringChars | utils/utils.go:23-25 | Joining the one-character strings the loop appends gives back the consumed text. |
| Utils.SliceToStringAppend | utils/utils.go:23-25 | Joining distributes over concatenation of the slices. |
| Utils.PrettyJsonString | utils/utils.go:27-35 | It never returns an error value. A successful indentation gives its text, and a failed one exits through `Check` with the indentation error. |
| Utils.ScanFrom | utils/utils.go:44-78 | The loop from position `i`: accepted text is always the prefix `s[..k]` for some `k` between `i` and `|s|`, the character after it opens nothing, and a mismatch names an opener. |
| Utils.Scan | utils/utils.go:41-53 | The scan starts with an empty stack, so an empty input, or one whose first character opens nothing, is accepted as the empty text. |
| Utils.Report | utils/utils.go:52-78 | An error value is returned exactly when the scan did not succeed. Success is the pretty-printing of the accepted text. A `}` on `[` gives "Invalid JSON input, opening [ is not closed" (line 61), a `]` on `{` gives "Invalid JSON input, opening { is not closed" (line 68), and running out gives "String is not JSON, not completed" (line 75). |
| Utils.ScanTracksNest | utils/utils.go:44-72 | While no stop point has been passed and the nesting is intact, resuming the scan at `i` with the reference nesting of `s[..i]` as its stack gives the result of the whole scan. |
| Utils.NestOpenersOnly | utils/utils.go:45-47 | The stack only ever holds `{` and `[`. |
| Utils.NestDepth | utils/utils.go:45-65 | Each opener pushes exactly one element and each closer pops exactly one. The depth is openers minus closers. |
| Utils.ScanFound | utils/utils.go:44-78 | The scan succeeds with `s[..k]` if and only if `s[..k]` is balanced, `k` is the end or a non-opener, and no earlier position was a stop point (empty stack before a non-opener). |
| Utils.ScanUnclosed | utils/utils.go:55-70 | The scan fails naming opener `o` if and only if, before any stop point, a closer meets `o`, the opener of the other kind, on top. |
| Utils.ScanNotCompleted | utils/utils.go:74-76 | The scan reports incomplete input if and only if the input ends with openers still waiting, never having stopped or mismatched. |
| Utils.ScanContinuesAfterBalance | utils/utils.go:45-49 | An opener met after the stack has emptied is pushed and scanning continues. |
| Utils.ScanFirstRegion | utils/utils.go:44-78 | The text `{` b `}` with `b` well nested, followed by nothing or by a non-opener, is accepted whole. |
| Utils.ScanFromBrace | utils/utils.go:83-85 | On a slice starting with `{`, the accepted text has length at least 2, starts with `{`, ends with a closer and is balanced. |
| Utils.ExtractedSlice | utils/utils.go:81-85 | The accepted text is `content[p..p+k]`, with `p` the first `{` and `k` its length. It starts with `{`, ends with a closer and is balanced. |
| Utils.ExtractRegion | utils/utils.go:81-88 | For `prefix {b} suffix` with no `{` in `prefix`, the start is `|prefix|` and the accepted text is `content[|prefix|..|prefix|+|b|+2]`. |
| UtilsExamples.SimpleJsonInMiddle | utils/utils_test.go:24-34 | The simple object in the middle of the line is found at offsets 15 to 62. |
| UtilsExamples.SimpleJsonAtEnd | utils/utils_test.go:35-45 | The simple object at the end of the line is found at offsets 21 to 68. |
| UtilsExamples.SimpleJsonAtStart | utils/utils_test.go:46-56 | The simple object at the start of the line is found at offsets 0 to 47. |
| UtilsExamples.ComplexJsonAtStart | utils/utils_test.go:57-76 | The nested object at the start of the line is found at offsets 0 to 114. |
| UtilsExamples.ComplexJsonInMiddle | utils/utils_test.go:77-96 | The nested object in the middle of the line is found at offsets 15 to 129. |
| UtilsExamples.ComplexJsonAtEnd | utils/utils_test.go:97-116 | The nested object at the end of the line is found at offsets 21 to 135. |
| UtilsExamples.SimpleBadJsonNotCompleted | utils/utils_test.go:117-122 | A missing final `}` gives "String is not JSON, not completed". |
| UtilsExamples.ComplexBadJsonUnclosed | utils/utils_test.go:123-128 | A `}` that closes `[` gives "Invalid JSON input, opening [ is not closed" at once. |
| Cmd.BuildAnalyzeCommand | cmd/analyze.go:20-43 | The checks run in order: argument count, pattern lookup, json lookup, empty search. An error always comes with the zero record, a lookup failure exits, and success copies `args[0]`, the search text and both flag values. Each case is stated in both directions. |
| Cmd.BuiltCommandRoundTrip | cmd/analyze.go:37-42 | A successful record has a non-empty search pattern. Building again from its own fields gives the same result. |
| Cmd.DefaultParameters | cmd/analyze_test.go:35-50 | `file.log --search=test` with default flags gives the record with `file.log`, `test`, no patterns, json off. |
| Cmd.EmptySearchIsAnError | cmd/analyze.go:33-35 | An empty search gives the zero record and "Search text is empty", not the record the test expects. |
| Cmd.AnalyzeLine | cmd/analyze.go:45-53 | The line is printed unchanged exactly when the search pattern matches. Nothing is printed when it does not match, and a match error exits. |
| File.EmptySearchRejected | file/file.go:33-35 | An empty search gives the zero record and "Search text is empty", whatever the flag values. |
| File.NoFilepathRejected | file/file.go:21-23 | No positional argument gives the zero record and "filepath is required as an argument". |
| File.ArgumentCheckFirst | file/file.go:21-35 | With no argument and an empty search, the error is the filepath one. |
| File.UndeclaredPatternFlagExits | file/file.go:25-26 | A failing `pattern` lookup exits through `Check` with its error rather than returning. |

## Left out

- Pretty-printing itself (`json.Indent`, utils/utils.go:30) is a foreign library. It is the parameter `indent`, and indentation and whitespace are not modelled.
- `ExitGracefully` and `Check` (utils/utils.go:12-21) write to standard error and exit. They are modelled only as terminal outcomes that carry the error.
- File I/O is not modelled: `CheckIfValidFile`, `LoadWholeFileToMemory`, `LoadFileInChunks`, `ScanFile` and `ProcessLogFile` (file/file.go:45-123) are operating-system calls and read loops.
- Regular-expression semantics (`regexp.Match`, cmd/analyze.go:46) come from a foreign library and are the parameter `regexMatch`.
- The cobra wiring (`analyze`, `analyzeCmd`, `init`, cmd/analyze.go:55-94) is glue. `analyze` also does not type-check as written: line 66 passes a string where `ProcessLogFile` takes an `AnalyzeCommand`.
- Go iterates a string by runes, and the tests count offsets in bytes. The model treats characters as `char` and assumes ASCII input, where the two agree.
- Go distinguishes a nil slice from an empty one, and `reflect.DeepEqual` in the tests sees the difference. The zero record's `Pattern` is modelled as `[]`.
- The text of the lookup errors that cobra and pflag produce is not modelled. Any error string is accepted.
- Brackets inside JSON strings count as nesting, exactly as in the code. No string awareness is added.
- Utils.ExtractJsonFromString: the case of a line with no `{` is a precondition, because the Go slice `content[-1:]` panics. There is no "not found" result.
