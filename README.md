# hunk — a verified model of the patch filter

`hunk PATTERN [OPTION...]` reads the output of `git log -p` from standard
input. It splits the input into patches (one per commit) and writes each
patch in which some line of the selected sections contains `PATTERN`. It
writes either the chosen sections of that patch or its commit hash.

This project models the core of the program in Dafny:

- `util.dfy` (`Util`) holds the result type used for every abort (a
  `panic!` or an `expect`, passed up to the caller). It also holds the string operations the program takes from
  the Rust standard library (`starts_with`, `ends_with`, `contains`) and a
  `FlatMap` for nested `for` loops.
- `parse_args.dfy` (`ParseArgs`) holds the configuration types and
  `parse_patch_sections`, which is a loop over the comma-separated tokens.
  `parse_slice` is a class whose method updates the configuration and the
  `has_search_string` flag while it recurses over the argument slice. The
  file also holds `parse_args` and `parse_program_args`. Each method is
  proved equal to a recursive specification function (`SectionsOf`,
  `ParseFrom`). The lemmas state the properties of the command line.
- `patch.dfy` (`Patch`) holds the patch tree: `Chunk`, `HunkDiffWithTail`,
  `Hunk`, `FileDiff`, `Patch`, `chunk_from` and `chunk_empty`. It also
  holds the *document*, the list of every stored line tagged with its
  section, in print order. `Select` is the reference definition of "the
  lines of the enabled sections".
- `engine.dfy` (`Engine`) holds `print_patch` and `process_patch`. They only
  read the tree and return what they write. They are proved equal to a
  selection from the document (printing) and to a search of the selection
  (matching).
- `builder.dfy` (`Builder`) holds `process_lines`, the imperative loop of
  the state machine. It runs over the input lines with the variables
  `state`, `patch` and the output so far. It is proved equal to the fold
  `Run` of a step function. That step function is written as
  decode → key → `Classify` → `Transition` → `Apply`. A shape invariant
  `Valid` shows that none of the `last_mut().expect(..)` calls, and neither
  the `lines[0]` index nor the `expect` in `print_patch`, can fail. Every step stores the raw line at
  exactly one place in the document. Besides its result, `ProcessLines`
  returns everything it wrote (`Written`). A panic does not take back what
  earlier flushes wrote, so on an abort that is the output of the lines
  before the fatal one.

Code that the program calls but does not define is passed in as the fields
of `Builder.Env`:
- `strip` is `strip_ansi_codes`;
- `valid` and `decode` are `String::from_utf8`;
- `lossy` is `String::from_utf8_lossy`.

Reading from standard input becomes the sequence of raw lines, each with
its terminator. Writing to standard output becomes the returned sequence of
strings.

The model follows the code in these details, several of which a reader of
the program's usage text would not expect:
- The stored line keeps its line terminator and escape codes. Only the
  classification key is stripped and trimmed.
- A `commit ` line in `HunkBodyDiff` starts a new patch without processing
  the old one (src/main.rs:274-279). Only `HunkBodyTail` flushes
  (src/main.rs:309-315).
- A `+`/`-` line in `HunkBodyTail` is appended to the *same* diff block,
  after its trailing context has begun (src/main.rs:293-295). In that
  block's document the new line is placed ahead of the trailing context, so
  print order can differ from input order.
- A `commit ` line in `PatchHeader` and a `diff --git` line in `FileHeader`
  are appended to the current header (src/main.rs:217-226, 229-239).
- `Config` is modelled as `main.rs` uses it: `match_on`, `output` (an
  `OutputConfig`: `CommitHash` or `Sections`), `search_string` and
  `decode_strategy`. The `Config` in `src/parse_args.rs` has a
  `print_sections` field and defines no `OutputConfig`. Here `--print-fields`
  sets `output := Sections(..)` and the default is `Sections` of the patch
  header. No option of the argument parser selects `CommitHash`. The
  commit-hash output is still modelled, because `print_patch` handles it.

## Model

| member | source | states |
|---|---|---|
| Util.ContainsAt | src/main.rs:107 | the `contains` test used for matching holds iff the pattern occurs at some position of the line |
| ParseArgs.Split | src/parse_args.rs:34 | `split(',')` yields at least one piece and no piece contains the separator |
| ParseArgs.JoinSplit | src/parse_args.rs:34 | joining the pieces of a split with the separator gives back the input |
| ParseArgs.SplitJoin | src/parse_args.rs:34 | splitting a join of separator-free pieces gives back the pieces |
| ParseArgs.SplitWordPrefix | src/parse_args.rs:34 | a separator-free prefix is glued onto the first piece of the split |
| ParseArgs.SplitTrailingSeparator | src/parse_args.rs:34 | a trailing separator yields an empty last piece |
| ParseArgs.SectionsOf | src/parse_args.rs:27-45 | a section list parses iff every token is a section name; then each switch is on iff its name occurs; otherwise the error names the first unknown token |
| ParseArgs.ParsePatchSections | src/parse_args.rs:27-45 | the loop over the comma-split tokens returns exactly `SectionsOf` of them, aborting at the first unknown token |
| ParseArgs.SectionsOfSnoc | src/parse_args.rs:34-41 | one more token extends the reading by one arm of the `match` |
| ParseArgs.SectionsOfStopsAtUnknown | src/parse_args.rs:34-41 | the first unknown token decides the outcome, whatever tokens follow it |
| ParseArgs.SectionsIgnoreOrderAndRepeats | src/parse_args.rs:34-42 | two token lists with the same set of tokens parse to the same outcome |
| ParseArgs.AllNamesTransfer | src/parse_args.rs:34-41 | if every token of one list is a section name, so is every token of a list drawn from it |
| ParseArgs.EmptySectionTokenIsFatal | src/parse_args.rs:34-41 | an empty list or a trailing comma makes an empty token, and that token is fatal |
| ParseArgs.SetSection | src/parse_args.rs:35-40 | one arm of the `match`: a token is accepted iff it is a section name, and then it turns on its own switch and leaves the others as they were; any other token is the error naming it |
| ParseArgs.StrategyOf | src/parse_args.rs:102-107 | exactly `lossy`, `panic` and `skip-line` are accepted; any other value is the error naming it (their strategies: `InvalidUtf8Values`) |
| ParseArgs.ParseFrom | src/parse_args.rs:88-122 | `parse_slice` as a recursive function: once taken, the search string is never replaced; a successful parse that starts without one takes it from the arguments; help is asked for only by the last argument (its other properties: the option and positional lemmas below) |
| ParseArgs.Parse | src/parse_args.rs:83-146 | `parse_args` from the defaults: on success the search string is one of the arguments; help is asked for only by the last argument |
| ParseArgs.ArgParser.constructor | src/parse_args.rs:124-142 | parsing starts from the default configuration with no search string taken |
| ParseArgs.ArgParser.ParseSlice | src/parse_args.rs:88-122 | the recursive slice parser leaves in its fields the configuration `ParseFrom` describes, or reports the same abort |
| ParseArgs.ParseArgsSlice | src/parse_args.rs:83-146 | `parse_args` returns `Parse(args)` |
| ParseArgs.ParseProgramArgs | src/parse_args.rs:148-153 | the program name is dropped before parsing; an empty argument vector aborts |
| ParseArgs.FieldsKeptWithoutOptions | src/parse_args.rs:88-122 | where no option name occurs, matching, output and decoding keep the values they had |
| ParseArgs.DefaultsWithoutOptions | src/parse_args.rs:124-139 | without options: diff-only matching, patch-header-only printing, strict decoding |
| ParseArgs.LonePattern | src/parse_args.rs:113-120 | a single positional argument is accepted as the search string |
| ParseArgs.OnePositional | src/parse_args.rs:113-119 | no positional argument is fatal; a second positional argument is fatal |
| ParseArgs.OptionPairStep | src/parse_args.rs:90-108 | a leading option with a value it accepts is consumed and sets its field, whatever follows |
| ParseArgs.OptionsWithoutPattern | src/parse_args.rs:88-119 | any list of option pairs without a positional argument aborts for the missing search string |
| ParseArgs.PatternAfterOptions | src/parse_args.rs:88-120 | after any list of option pairs, one positional argument is accepted and becomes the search string |
| ParseArgs.AfterOptions | src/parse_args.rs:90-108 | applying a run of option pairs never touches the search string |
| ParseArgs.OptionsConsumed | src/parse_args.rs:90-108 | a run of option pairs is consumed pair by pair, each setting its field, whatever follows the run |
| ParseArgs.OptionsAfterPattern | src/parse_args.rs:88-122 | once the pattern is taken, any option pairs that follow are accepted and the search string is kept |
| ParseArgs.UsageForm | src/parse_args.rs:83-146 | `[OPTION...] PATTERN [OPTION...]` parses, with the pattern as search string and the options applied in order from the defaults |
| ParseArgs.PatternBetweenOptions | src/parse_args.rs:88-122 | the usage form from any starting configuration |
| ParseArgs.PatternTaken | src/parse_args.rs:113-117 | the first positional argument becomes the search string unless it is a last `-h`/`--help` |
| ParseArgs.AfterOptionsKeepsSameExcept | src/parse_args.rs:90-108 | option pairs keep two configurations equal outside the one field in which they differ |
| ParseArgs.LaterOptionOverwrites | src/parse_args.rs:90-108 | an occurrence of an option overwrites its field, so two configurations differing only there parse alike from it on |
| ParseArgs.SecondPositionalIsFatal | src/parse_args.rs:88-118 | once the search string is taken, a further positional argument after any option pairs aborts, naming that argument |
| ParseArgs.OptionWithoutValue | src/parse_args.rs:94-110 | an option as the last argument, without its value, is fatal |
| ParseArgs.RepeatedOptionLastWins | src/parse_args.rs:90-108 | a repeated option keeps only the value of its last occurrence, whatever option pairs stand between the two: the first occurrence has no effect |
| ParseArgs.InvalidUtf8Values | src/parse_args.rs:101-107 | `lossy`, `panic` and `skip-line` select their strategies; any other value is fatal |
| ParseArgs.HelpOnlyWhenLast | src/parse_args.rs:111-118 | `-h`/`--help` asks for help only as the last argument; elsewhere it is the pattern or an unexpected argument |
| Patch.SelectMembership | src/main.rs:62-95 | a text is selected iff some document entry in an enabled section has that text |
| Patch.SelectTag | src/main.rs:63-67 | selecting from one chunk gives the whole chunk when its section is on and nothing otherwise |
| Patch.SelectAppend | src/main.rs:62-95 | selection distributes over concatenation of documents |
| Patch.ChunkFrom | src/main.rs:42-44 | `chunk_from` is the chunk holding exactly the line |
| Patch.ChunkEmpty | src/main.rs:46-48 | `chunk_empty` is the chunk holding no line |
| Engine.CommitHashOf | src/main.rs:56-61 | the hash is the colour-stripped first header line minus `commit `, with its terminator; an empty header or a missing prefix aborts |
| Engine.PrintPatch | src/main.rs:50-98 | in sections mode `print_patch` writes exactly the selection of the document and never fails; in commit-hash mode it writes one line or aborts (see `CommitHashOf`, `PrintSectionsIsSelection`) |
| Engine.ProcessPatch | src/main.rs:100-150 | `process_patch` writes something only when a line of a match section contains the search string, and can abort only in commit-hash mode (see `ProcessPatchSpec`) |
| Engine.PrintDiffsIsSelection | src/main.rs:81-92 | the loop over diff blocks writes the selection of the blocks' document |
| Engine.PrintHunksIsSelection | src/main.rs:74-93 | the loop over hunks writes the selection of the hunks' document, the `@@` line counting as context |
| Engine.PrintFilesIsSelection | src/main.rs:68-94 | the loop over files writes the selection of the files' document |
| Engine.PrintSectionsIsSelection | src/main.rs:62-95 | sections mode writes exactly the lines of the enabled sections in document order |
| Engine.LinesMatchIsAnyContains | src/main.rs:105-113 | the closure scanning a chunk finds a hit iff some line contains the search string |
| Engine.ChunkMatch | src/main.rs:115-119 | a gated chunk matches iff its selection contains the search string |
| Engine.DiffsMatchIsSearch | src/main.rs:135-146 | the scan over diff blocks hits iff the selection of their document contains the search string |
| Engine.HunksMatchIsSearch | src/main.rs:126-147 | the scan over hunks, header and leading context under `context`, hits iff the selection does |
| Engine.FilesMatchIsSearch | src/main.rs:120-148 | the scan over files hits iff the selection of their document does |
| Engine.PatchMatchesIsSearch | src/main.rs:100-150 | the scan of `process_patch` finds a hit iff some line of an enabled match section contains the search string |
| Engine.ProcessPatchSpec | src/main.rs:100-150 | a matching patch is printed once, with the configured output; otherwise nothing is written |
| Engine.NoSectionSelectsNothing | src/main.rs:115-148 | with every section switched off nothing is selected |
| Engine.NothingEnabledNeverMatches | src/main.rs:115-149 | with every match section switched off `process_patch` writes nothing |
| Engine.DisabledSectionsCannotMatch | src/main.rs:115-149 | if no line of an enabled section contains the search string, nothing is written, whatever the other sections hold |
| Engine.CommitHashRoundTrip | src/main.rs:56-61 | when a hash is written, `commit ` followed by it is the colour-stripped first header line |
| Builder.Decode | src/main.rs:180-194 | `Panic` aborts with the line number exactly on invalid input; `Lossy` never fails; `SkipLine` replaces an invalid line by `+` in `HunkHead` and ` ` elsewhere |
| Builder.TrimTerminator | src/main.rs:198-203 | the key is a prefix of the stripped line with one `\n`, then one `\r`, removed, and only when present |
| Builder.TrimmedKey | src/main.rs:196-203 | the two conditional pops compute the key of the stored line |
| Builder.Classify | src/main.rs:205-319 | the kind of a key corresponds one-to-one to the `starts_with`/`is_empty`/equality tests of the state machine |
| Builder.Transition | src/main.rs:205-319 | the per-state key tests: which kinds of line are fatal in which state (none in `PatchHeader` and `FileHeader`); only a `commit ` line in `HunkBodyTail` flushes; every new patch starts from a `commit ` line (shape: `TransitionKeepsShape`) |
| Builder.UpdateLastFile | src/main.rs:229 | replacing the last file leaves the header and the number of files alone |
| Builder.UpdateLastHunk | src/main.rs:242-243 | replacing the last hunk leaves the header, the files and the hunk count alone |
| Builder.UpdateLastDiff | src/main.rs:257-259 | replacing the last diff block leaves everything above it and the block count alone |
| Builder.UpdateLastDiffKeepsEarlier | src/main.rs:257-259 | replacing the last diff block leaves every earlier file, hunk and block, and the last hunk's header and leading context, as they were |
| Builder.NewPatch | src/main.rs:208-211 | a new patch holds the line as its only header line and no files, so its document is that one line |
| Builder.PushPatchHeader | src/main.rs:225 | `patch.patch_header.lines.push` appends the line to the header and keeps the files |
| Builder.PushFile | src/main.rs:218-224 | `patch.files.push` makes a new last file holding only the line |
| Builder.PushFileHeader | src/main.rs:238 | the line is appended to the last file's header, and its hunks, the patch header and the file count are kept |
| Builder.PushHunk | src/main.rs:231-236 | `file.hunks.push` makes a new last hunk with the line as header and no context or diffs |
| Builder.PushContextHead | src/main.rs:245 | the line is appended to the last hunk's leading context, and its `@@` header, its diff blocks, the patch header and the file count are kept |
| Builder.PushDiffBlock | src/main.rs:247-250 | `hunk.diffs.push` makes a new last block with the line as its only change |
| Builder.PushDiffLine | src/main.rs:260-295 | a changed line is appended to the last block's diff chunk, its trailing context and every count unchanged |
| Builder.PushContextTail | src/main.rs:265-292 | a context line is appended to the last block's trailing context, its diff chunk unchanged |
| Builder.Apply | src/main.rs:205-319 | the tree update of each action: only a new patch or a new file changes the number of files, and only a new patch or a header line changes the patch header (document effect: `ApplyInsertsLine`) |
| Builder.PatchHeaderDoc | src/main.rs:225 | in `PatchHeader` the line is appended to the end of the document |
| Builder.FileDocAppended | src/main.rs:218-224 | a new file appends its header line to the end of the document |
| Builder.FileHeaderDoc | src/main.rs:238 | in `FileHeader` the line is appended to the end of the document |
| Builder.HunkDocAppended | src/main.rs:231-236 | a new hunk appends its `@@` line, as context, to the end of the document |
| Builder.ContextHeadDoc | src/main.rs:245 | in `HunkHead` a context line is appended to the end of the document |
| Builder.DiffBlockDoc | src/main.rs:247-250 | a new diff block appends its line, as a change, to the end of the document |
| Builder.DiffLineDoc | src/main.rs:260-295 | a changed line is inserted before the last block's trailing context |
| Builder.ContextTailDoc | src/main.rs:265-292 | a trailing context line is appended to the end of the document |
| Builder.ApplyInsertsLine | src/main.rs:205-319 | every step either starts a patch whose document is just the line, or inserts the line, tagged with its section, into the document and changes nothing else |
| Builder.TransitionKeepsShape | src/main.rs:205-319 | every transition finds the last file/hunk/block its action needs and leaves the shape its next state promises |
| Builder.Advance | src/main.rs:205-319 | a step after decoding keeps the shape invariant and only appends to the output |
| Builder.Step | src/main.rs:173-319 | one loop iteration keeps the shape invariant and only appends to the output |
| Builder.Run | src/main.rs:165-321 | after any number of lines the state and patch satisfy the shape invariant |
| Builder.ProcessLines | src/main.rs:160-324 | `process_lines` returns what the fold over the lines followed by the final `process_patch` describes, including every abort, and its written output is `Written`: on an abort, what the lines before the fatal one wrote |
| Builder.WrittenBeforeAbort | src/main.rs:173-321 | once a line has aborted, no later line adds to the output |
| Builder.AbortStopsOutput | src/main.rs:173-321 | after a fatal line the output is exactly what the lines before it wrote, flushes included, and the error is that line's |
| Builder.AbortAtStep | src/main.rs:173-321 | an iteration that aborts ends `process_lines` with its error and with the output of the earlier iterations |
| Builder.OutputOnlyGrows | src/main.rs:173-321 | output is only appended: what the first lines wrote is a prefix of what all of them write |
| Builder.EarlierOutputKept | src/main.rs:160-324 | whatever earlier flushes wrote stays in the output of `process_lines`, even when a later line aborts |
| Builder.AdvanceLine | src/main.rs:205-320 | the `match` on the state computes the specified step |
| Builder.StepLine | src/main.rs:173-321 | one pass of the loop body, decoding then advancing, continues the fold of the lines before it by exactly one line |
| Builder.DecodeLine | src/main.rs:180-194 | the `match` on the decoding strategy computes `Decode` |
| Builder.AdvanceStores | src/main.rs:205-319 | a move other than a flush stores the line where its action says and writes nothing |
| Builder.AdvanceInHeaders | src/main.rs:206-255 | the arms for `Start`, `PatchHeader`, `FileHeader` and `HunkHead` compute the specified step |
| Builder.AdvanceInDiff | src/main.rs:256-283 | the `HunkBodyDiff` arm computes the specified step |
| Builder.AdvanceInTail | src/main.rs:284-319 | the `HunkBodyTail` arm computes the specified step, flushing on `commit ` |
| Builder.RunSnoc | src/main.rs:173-321 | each iteration continues from the state the previous lines left |
| Builder.RunErrStep | src/main.rs:173-321 | after a fatal line the next line is not read |
| Builder.RunErrPersists | src/main.rs:173-321 | a fatal line ends the run: later lines change nothing |
| Builder.StartsWithTrans | src/main.rs:58 | a prefix of a prefix is a prefix, so the `commit ` key makes the stripped line start with `commit ` |
| Builder.FlushNeverFails | src/main.rs:56-61 | `process_patch` never aborts on a patch the state machine built, because its first header line is the `commit ` line |
| Builder.FatalOnlyFromLines | src/main.rs:160-324 | the run aborts iff some line is fatal, with that line's error; the final flush never fails |
| Builder.EmptyInputWritesNothing | src/main.rs:166-171 | on empty input the final flush sees the empty patch and nothing is written |
| Builder.NothingMatchesEmptyPatch | src/main.rs:168-171 | the initial empty patch never matches |
| Builder.StepStoresLine | src/main.rs:205-319 | a step stores the decoded line itself, not its key, at exactly one place of the document |
| Builder.CommitInTailFlushes | src/main.rs:309-315 | a `commit ` line in `HunkBodyTail` writes the old patch's output and then starts a new patch |
| Builder.CommitInDiffDiscards | src/main.rs:274-279 | a `commit ` line in `HunkBodyDiff` starts a new patch and writes nothing for the old one |
| Builder.OnlyTailCommitWrites | src/main.rs:205-319 | a step that writes anything was in `HunkBodyTail` and moves to `PatchHeader` |
| Builder.SkipLineAtStartIsFatal | src/main.rs:184-215 | under `SkipLine`, an invalid first line becomes ` ` and the run aborts as not starting with a commit |
| Builder.SkipLineInHunkHeadOpensDiff | src/main.rs:184-194 | under `SkipLine`, an invalid line in `HunkHead` becomes `+` and opens the first diff block |
| Builder.PatchHeaderKeepsLines | src/main.rs:217-226 | in `PatchHeader` every line but `diff --git`, including another `commit `, is appended to the header |
| Builder.HunkHeadAndBodyRejections | src/main.rs:241-282 | a blank key is fatal in `HunkHead`; an `@@` key is fatal in `HunkBodyDiff` |
| Builder.ChangeAfterTailJoinsSameBlock | src/main.rs:293-295 | in `HunkBodyTail` a changed line joins the same block's diff chunk, its trailing context kept |

## Left out

- `main` and the reading and writing (src/main.rs:152-158, 173-177). Input is a sequence of raw lines as `read_until(b'\n')` returns them. Output is the returned sequence of written strings.
- The `io::Result` errors of reading and writing. Only the program's own aborts are modelled.
- `strip_ansi_codes`, `String::from_utf8` and `String::from_utf8_lossy` are foreign code. They are fields of `Builder.Env`, so every property holds for any behaviour of theirs. Lemmas that need a particular behaviour (`strip(" ") == " "`) require it explicitly.
- `print_help` (src/parse_args.rs:47-81) prints a usage text in `HashMap` iteration order. Only its ending is modelled, as the abort `HelpRequested`.
- The text of the panic messages. Each abort is a constructor of `Patch.Fatal` or `ParseArgs.ArgError`.
- The in-place updates of `process_lines` (`push` onto `last_mut()` of nested `Vec`s) are modelled on values. Each update returns the new patch. So aliasing between the nested vectors is not modelled.
- src/test.rs. Its tests use an older two-argument signature and read data files, so they are not modelled.
- Builder.Decode: the line number is unbounded, so `line_num` overflow is not modelled.

