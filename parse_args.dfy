/** The command line of `hunk`: the configuration record, the parser of
    comma-separated section lists and the recursive parser of the argument
    slice. Every `panic!` of the original, and the help screen (which
    prints and then panics), is an `Err` outcome here. */
module ParseArgs {
  import opened Util

  /** How lines that are not valid UTF-8 are treated. */
  datatype Utf8Strategy = Panic | Lossy | SkipLine

  /** One switch per structural section of a patch. */
  datatype PatchSections = PatchSections(diff: bool, context: bool, file_header: bool, patch_header: bool)

  /** What is written for a matching patch: its commit hash, or the
      enabled sections. */
  datatype OutputConfig = CommitHash | Sections(sections: PatchSections)

  datatype Config = Config(
    match_on: PatchSections,
    output: OutputConfig,
    search_string: string,
    decode_strategy: Utf8Strategy)

  /** Why the program aborts while reading its arguments. */
  datatype ArgError =
    | UnknownSection(token: string)
    | MissingValue(option: string)
    | UnknownStrategy(value: string)
    | HelpRequested
    | UnexpectedArg(arg: string)
    | MissingSearchString
    | MissingProgramName

  const NoSections := PatchSections(false, false, false, false)

  /** The configuration before any argument is read. */
  const DefaultConfig := Config(
    PatchSections(true, false, false, false),
    Sections(PatchSections(false, false, false, true)),
    "",
    Panic)

  predicate IsSectionName(token: string) {
    token == "diff" || token == "context" || token == "file_header" || token == "patch_header"
  }

  predicate IsOptionName(arg: string) {
    arg == "--match-fields" || arg == "--print-fields" || arg == "--invalid-utf8"
  }

  predicate IsHelp(arg: string) {
    arg == "--help" || arg == "-h"
  }

  // ---------------------------------------------------------------------
  // `str::split` on one character, and its inverse

  /** The pieces of `s` between occurrences of `sep`, as `str::split`
      yields them: there is always at least one piece, and a leading,
      trailing or doubled separator yields an empty piece. */
  function Split(s: string, sep: char): (pieces: seq<string>)
    ensures |pieces| >= 1
    ensures forall i :: 0 <= i < |pieces| ==> sep !in pieces[i]
    decreases |s|
  {
    if s == [] then [""]
    else
      var rest := Split(s[1..], sep);
      if s[0] == sep then [""] + rest
      else [[s[0]] + rest[0]] + rest[1..]
  }

  /** The pieces put back together with `sep` between them. */
  function Join(pieces: seq<string>, sep: char): string
    requires |pieces| >= 1
    decreases |pieces|
  {
    if |pieces| == 1 then pieces[0] else pieces[0] + [sep] + Join(pieces[1..], sep)
  }

  lemma {:induction false} JoinSplit(s: string, sep: char)
    ensures Join(Split(s, sep), sep) == s
    decreases |s|
  {
    if s != [] {
      JoinSplit(s[1..], sep);
      var rest := Split(s[1..], sep);
      if s[0] != sep {
        if |rest| == 1 {
          assert Join(Split(s, sep), sep) == [s[0]] + rest[0];
        } else {
          assert Join(Split(s, sep), sep) == [s[0]] + rest[0] + [sep] + Join(rest[1..], sep);
        }
      }
    }
  }

  /** Splitting text that starts with a separator-free word `w` glues `w`
      onto the first piece. */
  lemma {:induction false} SplitWordPrefix(w: string, t: string, sep: char)
    requires sep !in w
    ensures Split(w + t, sep) == [w + Split(t, sep)[0]] + Split(t, sep)[1..]
    decreases |w|
  {
    if w != [] {
      assert (w + t)[1..] == w[1..] + t;
      SplitWordPrefix(w[1..], t, sep);
      assert [w[0]] + (w[1..] + Split(t, sep)[0]) == w + Split(t, sep)[0];
    } else {
      assert w + t == t;
      assert w + Split(t, sep)[0] == Split(t, sep)[0];
    }
  }

  lemma {:induction false} SplitJoin(pieces: seq<string>, sep: char)
    requires |pieces| >= 1
    requires forall i :: 0 <= i < |pieces| ==> sep !in pieces[i]
    ensures Split(Join(pieces, sep), sep) == pieces
    decreases |pieces|
  {
    if |pieces| == 1 {
      SplitWordPrefix(pieces[0], "", sep);
      assert pieces[0] + "" == pieces[0];
    } else {
      var tail := Join(pieces[1..], sep);
      SplitJoin(pieces[1..], sep);
      assert pieces[0] + [sep] + tail == pieces[0] + ([sep] + tail);
      SplitWordPrefix(pieces[0], [sep] + tail, sep);
      assert ([sep] + tail)[1..] == tail;
      assert pieces[0] + "" == pieces[0];
    }
  }

  /** A separator at the end of the text leaves an empty last piece. */
  lemma {:induction false} SplitTrailingSeparator(s: string, sep: char)
    ensures |Split(s + [sep], sep)| >= 2
    ensures Split(s + [sep], sep)[|Split(s + [sep], sep)| - 1] == ""
    decreases |s|
  {
    if s == [] {
      assert s + [sep] == [sep];
      assert [sep][1..] == [];
    } else {
      assert (s + [sep])[1..] == s[1..] + [sep];
      SplitTrailingSeparator(s[1..], sep);
    }
  }

  // ---------------------------------------------------------------------
  // parse_patch_sections

  /** One token of a section list applied to the switches read so far. */
  function SetSection(sections: PatchSections, token: string): (r: Result<PatchSections, ArgError>)
    ensures r.Ok? <==> IsSectionName(token)
    ensures r.Err? ==> r.error == UnknownSection(token)
    ensures r.Ok? ==> (r.value.diff <==> sections.diff || token == "diff")
    ensures r.Ok? ==> (r.value.context <==> sections.context || token == "context")
    ensures r.Ok? ==> (r.value.file_header <==> sections.file_header || token == "file_header")
    ensures r.Ok? ==> (r.value.patch_header <==> sections.patch_header || token == "patch_header")
  {
    if token == "diff" then Ok(sections.(diff := true))
    else if token == "context" then Ok(sections.(context := true))
    else if token == "file_header" then Ok(sections.(file_header := true))
    else if token == "patch_header" then Ok(sections.(patch_header := true))
    else Err(UnknownSection(token))
  }

  /** The switches named by a list of tokens, read left to right starting
      from all-off; the first token that is not a section name aborts. */
  function SectionsOf(tokens: seq<string>): (r: Result<PatchSections, ArgError>)
    ensures r.Ok? <==> forall i :: 0 <= i < |tokens| ==> IsSectionName(tokens[i])
    ensures r.Ok? ==> r.value == PatchSections(
      "diff" in tokens, "context" in tokens, "file_header" in tokens, "patch_header" in tokens)
    ensures r.Err? ==> exists j :: 0 <= j < |tokens| && FirstUnknown(tokens, j) && r.error == UnknownSection(tokens[j])
    decreases |tokens|
  {
    if tokens == [] then Ok(NoSections)
    else
      var prefix := tokens[..|tokens| - 1];
      var last := tokens[|tokens| - 1];
      assert tokens == prefix + [last];
      var sections :- SectionsOf(prefix);
      assert forall j :: 0 <= j < |prefix| ==> IsSectionName(prefix[j]);
      assert FirstUnknown(tokens, |tokens| - 1) <== !IsSectionName(last);
      SetSection(sections, last)
  }

  /** `tokens[j]` is the first token that names no section. */
  predicate FirstUnknown(tokens: seq<string>, j: int)
    requires 0 <= j < |tokens|
  {
    !IsSectionName(tokens[j]) && forall k :: 0 <= k < j ==> IsSectionName(tokens[k])
  }

  /** Repeating or reordering the tokens of a section list does not change
      what it parses to. */
  lemma SectionsIgnoreOrderAndRepeats(a: seq<string>, b: seq<string>)
    requires forall t :: t in a <==> t in b
    ensures SectionsOf(a).Ok? == SectionsOf(b).Ok?
    ensures SectionsOf(a).Ok? ==> SectionsOf(a) == SectionsOf(b)
  {
    if SectionsOf(a).Ok? {
      AllNamesTransfer(a, b);
    }
    if SectionsOf(b).Ok? {
      AllNamesTransfer(b, a);
    }
  }

  lemma AllNamesTransfer(a: seq<string>, b: seq<string>)
    requires forall t :: t in b ==> t in a
    requires forall i :: 0 <= i < |a| ==> IsSectionName(a[i])
    ensures forall j :: 0 <= j < |b| ==> IsSectionName(b[j])
  {
    forall j | 0 <= j < |b|
      ensures IsSectionName(b[j])
    {
      assert b[j] in a;
    }
  }

  /** An empty list, or one with a trailing comma, holds an empty token,
      which names no section. */
  lemma EmptySectionTokenIsFatal(input: string)
    requires input == "" || EndsWith(input, ",")
    ensures SectionsOf(Split(input, ',')).Err?
  {
    var tokens := Split(input, ',');
    if input == "" {
      assert tokens[0] == "";
    } else {
      var s := input[..|input| - 1];
      assert input == s + [','];
      SplitTrailingSeparator(s, ',');
      assert tokens[|tokens| - 1] == "";
    }
  }

  /** One more token extends the reading by one `SetSection`. */
  lemma SectionsOfSnoc(tokens: seq<string>, i: nat)
    requires i < |tokens|
    ensures SectionsOf(tokens[..i + 1])
         == (var sections :- SectionsOf(tokens[..i]); SetSection(sections, tokens[i]))
  {
    assert tokens[..i + 1][..i] == tokens[..i];
  }

  /** The first unknown token decides the outcome of the whole list. */
  lemma {:induction false} SectionsOfStopsAtUnknown(tokens: seq<string>, i: nat)
    requires i < |tokens| && SectionsOf(tokens[..i]).Ok? && !IsSectionName(tokens[i])
    ensures SectionsOf(tokens) == Err(UnknownSection(tokens[i]))
    decreases |tokens|
  {
    if i + 1 == |tokens| {
      SectionsOfSnoc(tokens, i);
      assert tokens[..i + 1] == tokens;
    } else {
      var prefix := tokens[..|tokens| - 1];
      assert prefix[..i] == tokens[..i];
      SectionsOfStopsAtUnknown(prefix, i);
    }
  }

  /** `parse_patch_sections`: the switches start all off and every
      comma-separated token turns one on. */
  method ParsePatchSections(input: string) returns (r: Result<PatchSections, ArgError>)
    ensures r == SectionsOf(Split(input, ','))
  {
    var sections := NoSections;
    var tokens := Split(input, ',');
    for i := 0 to |tokens|
      invariant SectionsOf(tokens[..i]) == Ok(sections)
    {
      var token := tokens[i];
      SectionsOfSnoc(tokens, i);
      if token == "diff" {
        sections := sections.(diff := true);
      } else if token == "context" {
        sections := sections.(context := true);
      } else if token == "file_header" {
        sections := sections.(file_header := true);
      } else if token == "patch_header" {
        sections := sections.(patch_header := true);
      } else {
        SectionsOfStopsAtUnknown(tokens, i);
        return Err(UnknownSection(token));
      }
    }
    assert tokens[..|tokens|] == tokens;
    return Ok(sections);
  }

  // ---------------------------------------------------------------------
  // parse_args / parse_slice

  /** The value of `--invalid-utf8`. */
  function StrategyOf(value: string): (r: Result<Utf8Strategy, ArgError>)
    ensures r.Ok? <==> value == "lossy" || value == "panic" || value == "skip-line"
    ensures r.Err? ==> r.error == UnknownStrategy(value)
  {
    if value == "lossy" then Ok(Lossy)
    else if value == "panic" then Ok(Panic)
    else if value == "skip-line" then Ok(SkipLine)
    else Err(UnknownStrategy(value))
  }

  /** What `parse_slice` leaves in `config` when it returns, given whether
      a search string has been taken already. The alternatives are tried in
      the order of the slice patterns. */
  function ParseFrom(args: seq<string>, hasSearchString: bool, config: Config): (r: Result<Config, ArgError>)
    ensures r.Ok? && hasSearchString ==> r.value.search_string == config.search_string
    ensures r.Ok? && !hasSearchString ==> r.value.search_string in args
    ensures r == Err(HelpRequested) ==> |args| > 0 && IsHelp(args[|args| - 1])
    decreases |args|
  {
    if |args| >= 2 && args[0] == "--match-fields" then
      var sections :- SectionsOf(Split(args[1], ','));
      ParseFrom(args[2..], hasSearchString, config.(match_on := sections))
    else if args == ["--match-fields"] then Err(MissingValue("--match-fields"))
    else if |args| >= 2 && args[0] == "--print-fields" then
      var sections :- SectionsOf(Split(args[1], ','));
      ParseFrom(args[2..], hasSearchString, config.(output := Sections(sections)))
    else if args == ["--print-fields"] then Err(MissingValue("--print-fields"))
    else if |args| >= 2 && args[0] == "--invalid-utf8" then
      var strategy :- StrategyOf(args[1]);
      ParseFrom(args[2..], hasSearchString, config.(decode_strategy := strategy))
    else if args == ["--invalid-utf8"] then Err(MissingValue("--invalid-utf8"))
    else if args == ["--help"] || args == ["-h"] then Err(HelpRequested)
    else if |args| >= 1 && !hasSearchString then
      ParseFrom(args[1..], true, config.(search_string := args[0]))
    else if |args| >= 1 then Err(UnexpectedArg(args[0]))
    else if !hasSearchString then Err(MissingSearchString)
    else Ok(config)
  }

  /** The configuration `parse_args` returns for an argument list. */
  function Parse(args: seq<string>): (r: Result<Config, ArgError>)
    ensures r.Ok? ==> r.value.search_string in args
    ensures r == Err(HelpRequested) ==> |args| > 0 && IsHelp(args[|args| - 1])
  {
    ParseFrom(args, false, DefaultConfig)
  }

  /** The mutable state `parse_slice` threads through its recursion: the
      configuration being filled in and the `has_search_string` flag. */
  class ArgParser {
    var config: Config
    var hasSearchString: bool

    constructor ()
      ensures config == DefaultConfig && !hasSearchString
    {
      config := DefaultConfig;
      hasSearchString := false;
    }

    /** `parse_slice`: consume the slice front to back, updating the fields. */
    method ParseSlice(args: seq<string>) returns (r: Result<(), ArgError>)
      modifies this
      ensures var spec := ParseFrom(args, old(hasSearchString), old(config));
        && r.Ok? == spec.Ok?
        && (r.Ok? ==> config == spec.value)
        && (r.Err? ==> r.error == spec.error)
      decreases |args|
    {
      if |args| >= 2 && args[0] == "--match-fields" {
        var sections := ParsePatchSections(args[1]);
        if sections.Err? {
          return Err(sections.error);
        }
        config := config.(match_on := sections.value);
        r := ParseSlice(args[2..]);
      } else if args == ["--match-fields"] {
        r := Err(MissingValue("--match-fields"));
      } else if |args| >= 2 && args[0] == "--print-fields" {
        var sections := ParsePatchSections(args[1]);
        if sections.Err? {
          return Err(sections.error);
        }
        config := config.(output := Sections(sections.value));
        r := ParseSlice(args[2..]);
      } else if args == ["--print-fields"] {
        r := Err(MissingValue("--print-fields"));
      } else if |args| >= 2 && args[0] == "--invalid-utf8" {
        var value := args[1];
        if value == "lossy" {
          config := config.(decode_strategy := Lossy);
        } else if value == "panic" {
          config := config.(decode_strategy := Panic);
        } else if value == "skip-line" {
          config := config.(decode_strategy := SkipLine);
        } else {
          return Err(UnknownStrategy(value));
        }
        r := ParseSlice(args[2..]);
      } else if args == ["--invalid-utf8"] {
        r := Err(MissingValue("--invalid-utf8"));
      } else if args == ["--help"] || args == ["-h"] {
        r := Err(HelpRequested);
      } else if |args| >= 1 && !hasSearchString {
        config := config.(search_string := args[0]);
        hasSearchString := true;
        r := ParseSlice(args[1..]);
      } else if |args| >= 1 {
        r := Err(UnexpectedArg(args[0]));
      } else if !hasSearchString {
        r := Err(MissingSearchString);
      } else {
        r := Ok(());
      }
    }
  }

  /** `parse_args`: start from the defaults and parse the whole slice. */
  method ParseArgsSlice(args: seq<string>) returns (r: Result<Config, ArgError>)
    ensures r == Parse(args)
  {
    var parser := new ArgParser();
    var outcome := parser.ParseSlice(args);
    if outcome.Err? {
      return Err(outcome.error);
    }
    return Ok(parser.config);
  }

  /** `parse_program_args`: the program name `argv[0]` is dropped; slicing
      past the end of an empty vector panics. */
  method ParseProgramArgs(argv: seq<string>) returns (r: Result<Config, ArgError>)
    ensures |argv| == 0 ==> r == Err(MissingProgramName)
    ensures |argv| > 0 ==> r == Parse(argv[1..])
  {
    if |argv| == 0 {
      return Err(MissingProgramName);
    }
    r := ParseArgsSlice(argv[1..]);
  }

  // ---------------------------------------------------------------------
  // Properties of the argument parser

  /** Where no option name occurs, the options keep their starting values:
      so with a bare pattern the defaults are diff-only matching,
      patch-header-only printing and the strict decoder. */
  lemma {:induction false} FieldsKeptWithoutOptions(args: seq<string>, has: bool, config: Config)
    requires forall i :: 0 <= i < |args| ==> !IsOptionName(args[i])
    requires ParseFrom(args, has, config).Ok?
    ensures var c := ParseFrom(args, has, config).value;
      && c.match_on == config.match_on
      && c.output == config.output
      && c.decode_strategy == config.decode_strategy
    decreases |args|
  {
    if |args| >= 1 {
      assert !IsOptionName(args[0]);
      FieldsKeptWithoutOptions(args[1..], true, config.(search_string := args[0]));
    }
  }

  lemma DefaultsWithoutOptions(args: seq<string>)
    requires forall i :: 0 <= i < |args| ==> !IsOptionName(args[i])
    requires Parse(args).Ok?
    ensures Parse(args).value.match_on == PatchSections(true, false, false, false)
    ensures Parse(args).value.output == Sections(PatchSections(false, false, false, true))
    ensures Parse(args).value.decode_strategy == Panic
  {
    FieldsKeptWithoutOptions(args, false, DefaultConfig);
  }

  /** A lone pattern is accepted and becomes the search string. */
  lemma LonePattern(pattern: string)
    requires !IsOptionName(pattern) && !IsHelp(pattern)
    ensures Parse([pattern]) == Ok(DefaultConfig.(search_string := pattern))
  {
    assert [pattern][1..] == [];
    assert ParseFrom([], true, DefaultConfig.(search_string := pattern))
        == Ok(DefaultConfig.(search_string := pattern));
  }

  /** Exactly one positional argument is accepted: none is fatal, and a
      second one is fatal. */
  lemma OnePositional(a: string, b: string)
    requires !IsOptionName(a) && !IsHelp(a) && !IsOptionName(b) && !IsHelp(b)
    ensures Parse([]) == Err(MissingSearchString)
    ensures Parse([a, b]) == Err(UnexpectedArg(b))
  {
    assert [a, b][1..] == [b];
    assert ParseFrom([b], true, DefaultConfig.(search_string := a)) == Err(UnexpectedArg(b));
  }

  /** Option arguments only: each option name followed by a value it
      accepts, so that no element of the list is a positional argument. */
  predicate OptionPairs(opts: seq<string>)
    decreases |opts|
  {
    |opts| == 0
    || (|opts| >= 2 && IsOptionName(opts[0])
        && (if opts[0] == "--invalid-utf8" then StrategyOf(opts[1]).Ok?
            else SectionsOf(Split(opts[1], ',')).Ok?)
        && OptionPairs(opts[2..]))
  }

  /** The configuration after the first option pair of `opts`. */
  function AfterOption(opts: seq<string>, config: Config): (r: Config)
    requires |opts| >= 2 && OptionPairs(opts)
    ensures r.search_string == config.search_string
    ensures opts[0] == "--match-fields" ==> r.match_on == SectionsOf(Split(opts[1], ',')).value
    ensures opts[0] == "--print-fields" ==> r.output == Sections(SectionsOf(Split(opts[1], ',')).value)
    ensures opts[0] == "--invalid-utf8" ==> r.decode_strategy == StrategyOf(opts[1]).value
    ensures opts[0] != "--match-fields" ==> r.match_on == config.match_on
    ensures opts[0] != "--print-fields" ==> r.output == config.output
    ensures opts[0] != "--invalid-utf8" ==> r.decode_strategy == config.decode_strategy
  {
    if opts[0] == "--match-fields" then config.(match_on := SectionsOf(Split(opts[1], ',')).value)
    else if opts[0] == "--print-fields" then config.(output := Sections(SectionsOf(Split(opts[1], ',')).value))
    else config.(decode_strategy := StrategyOf(opts[1]).value)
  }

  /** A leading option pair is consumed and sets its field, whatever
      follows it. */
  lemma OptionPairStep(opts: seq<string>, tail: seq<string>, has: bool, config: Config)
    requires |opts| >= 2 && OptionPairs(opts)
    ensures ParseFrom(opts + tail, has, config) == ParseFrom(opts[2..] + tail, has, AfterOption(opts, config))
  {
    assert (opts + tail)[2..] == opts[2..] + tail;
    assert (opts + tail)[1] == opts[1];
  }

  /** The configuration after every option pair of `opts`, applied from
      left to right. */
  function AfterOptions(opts: seq<string>, config: Config): (r: Config)
    requires OptionPairs(opts)
    ensures r.search_string == config.search_string
    decreases |opts|
  {
    if |opts| == 0 then config else AfterOptions(opts[2..], AfterOption(opts, config))
  }

  /** A run of option pairs is consumed, each pair setting its field in
      turn, whatever follows the run. */
  lemma {:induction false} OptionsConsumed(opts: seq<string>, tail: seq<string>, has: bool, config: Config)
    requires OptionPairs(opts)
    ensures ParseFrom(opts + tail, has, config) == ParseFrom(tail, has, AfterOptions(opts, config))
    decreases |opts|
  {
    if |opts| == 0 {
      assert opts + tail == tail;
    } else {
      OptionPairStep(opts, tail, has, config);
      OptionsConsumed(opts[2..], tail, has, AfterOption(opts, config));
    }
  }

  /** Once the pattern is taken, any options that follow are accepted and
      the search string is kept. */
  lemma OptionsAfterPattern(opts: seq<string>, config: Config)
    requires OptionPairs(opts)
    ensures ParseFrom(opts, true, config) == Ok(AfterOptions(opts, config))
    ensures ParseFrom(opts, true, config).value.search_string == config.search_string
  {
    OptionsConsumed(opts, [], true, config);
    assert opts + [] == opts;
  }

  /** The usage form `hunk [OPTION...] PATTERN [OPTION...]` parses: the
      pattern is the search string, and the options before and after it
      are applied in order from the defaults. A `-h`/`--help` is a pattern
      here unless it is the last argument. */
  lemma UsageForm(before: seq<string>, pattern: string, after: seq<string>)
    requires OptionPairs(before) && OptionPairs(after)
    requires !IsOptionName(pattern) && !(IsHelp(pattern) && after == [])
    ensures Parse(before + [pattern] + after)
         == Ok(AfterOptions(after, AfterOptions(before, DefaultConfig).(search_string := pattern)))
    ensures Parse(before + [pattern] + after).value.search_string == pattern
  {
    assert before + [pattern] + after == before + ([pattern] + after);
    PatternBetweenOptions(before, pattern, after, DefaultConfig);
  }

  /** `UsageForm` from any starting configuration. */
  lemma PatternBetweenOptions(before: seq<string>, pattern: string, after: seq<string>, config: Config)
    requires OptionPairs(before) && OptionPairs(after)
    requires !IsOptionName(pattern) && !(IsHelp(pattern) && after == [])
    ensures ParseFrom(before + ([pattern] + after), false, config)
         == Ok(AfterOptions(after, AfterOptions(before, config).(search_string := pattern)))
  {
    var c := AfterOptions(before, config);
    OptionsConsumed(before, [pattern] + after, false, config);
    PatternTaken(pattern, after, c);
    OptionsAfterPattern(after, c.(search_string := pattern));
  }

  /** The first positional argument is taken as the pattern, unless it is a
      last `-h`/`--help`. */
  lemma PatternTaken(pattern: string, after: seq<string>, config: Config)
    requires !IsOptionName(pattern) && !(IsHelp(pattern) && after == [])
    ensures ParseFrom([pattern] + after, false, config)
         == ParseFrom(after, true, config.(search_string := pattern))
  {
    assert ([pattern] + after)[0] == pattern && ([pattern] + after)[1..] == after;
  }

  /** Options alone, however many, leave the search string missing. */
  lemma {:induction false} OptionsWithoutPattern(opts: seq<string>, config: Config)
    requires OptionPairs(opts)
    ensures ParseFrom(opts, false, config) == Err(MissingSearchString)
    decreases |opts|
  {
    if |opts| > 0 {
      OptionPairStep(opts, [], false, config);
      assert opts + [] == opts && opts[2..] + [] == opts[2..];
      OptionsWithoutPattern(opts[2..], AfterOption(opts, config));
    }
  }

  /** After options, one positional argument becomes the search string and
      the parse succeeds. */
  lemma {:induction false} PatternAfterOptions(opts: seq<string>, pattern: string, config: Config)
    requires OptionPairs(opts)
    requires !IsOptionName(pattern) && !IsHelp(pattern)
    ensures ParseFrom(opts + [pattern], false, config).Ok?
    ensures ParseFrom(opts + [pattern], false, config).value.search_string == pattern
    decreases |opts|
  {
    if |opts| == 0 {
      assert opts + [pattern] == [pattern];
      assert [pattern][1..] == [];
    } else {
      OptionPairStep(opts, [pattern], false, config);
      PatternAfterOptions(opts[2..], pattern, AfterOption(opts, config));
    }
  }

  /** Once the search string is taken, a further positional argument after
      any options is fatal, wherever it stands and whatever follows it. */
  lemma {:induction false} SecondPositionalIsFatal(opts: seq<string>, extra: string, rest: seq<string>,
                                                   config: Config)
    requires OptionPairs(opts)
    requires !IsOptionName(extra) && !(IsHelp(extra) && rest == [])
    ensures ParseFrom(opts + [extra] + rest, true, config) == Err(UnexpectedArg(extra))
    decreases |opts|
  {
    if |opts| == 0 {
      assert opts + [extra] + rest == [extra] + rest;
    } else {
      assert opts + [extra] + rest == opts + ([extra] + rest);
      assert opts[2..] + [extra] + rest == opts[2..] + ([extra] + rest);
      OptionPairStep(opts, [extra] + rest, true, config);
      SecondPositionalIsFatal(opts[2..], extra, rest, AfterOption(opts, config));
    }
  }

  /** An option at the end of the arguments, without its value, is fatal. */
  lemma OptionWithoutValue(option: string, has: bool, config: Config)
    requires IsOptionName(option)
    ensures ParseFrom([option], has, config) == Err(MissingValue(option))
  {
  }

  /** Two configurations that can differ only in the field `option` sets. */
  predicate SameExcept(c1: Config, c2: Config, option: string) {
    && c1.search_string == c2.search_string
    && (option != "--match-fields" ==> c1.match_on == c2.match_on)
    && (option != "--print-fields" ==> c1.output == c2.output)
    && (option != "--invalid-utf8" ==> c1.decode_strategy == c2.decode_strategy)
  }

  /** Option pairs applied to two configurations keep them equal outside
      the one field in which they may differ. */
  lemma {:induction false} AfterOptionsKeepsSameExcept(opts: seq<string>, c1: Config, c2: Config, option: string)
    requires OptionPairs(opts) && SameExcept(c1, c2, option)
    ensures SameExcept(AfterOptions(opts, c1), AfterOptions(opts, c2), option)
    decreases |opts|
  {
    if |opts| > 0 {
      AfterOptionsKeepsSameExcept(opts[2..], AfterOption(opts, c1), AfterOption(opts, c2), option);
    }
  }

  /** An occurrence of `option` overwrites the one field in which two
      configurations may differ, so from there on the parse is the same. */
  lemma LaterOptionOverwrites(option: string, value: string, rest: seq<string>, has: bool,
                              c1: Config, c2: Config)
    requires IsOptionName(option) && SameExcept(c1, c2, option)
    ensures ParseFrom([option, value] + rest, has, c1) == ParseFrom([option, value] + rest, has, c2)
  {
    var args := [option, value] + rest;
    assert args[0] == option && args[1] == value && args[2..] == rest;
    if option == "--match-fields" {
      assert c1.(match_on := c2.match_on) == c2;
    } else if option == "--print-fields" {
      assert c1.(output := c2.output) == c2;
    } else {
      assert c1.(decode_strategy := c2.decode_strategy) == c2;
    }
  }

  /** A repeated option keeps only its last value, whatever other options
      stand between the two occurrences: the first occurrence has no
      effect, and in particular a second set of sections replaces the first
      rather than adding to it. */
  lemma RepeatedOptionLastWins(option: string, first: string, mid: seq<string>, second: string,
                               rest: seq<string>, has: bool, config: Config)
    requires IsOptionName(option)
    requires option == "--invalid-utf8" ==> StrategyOf(first).Ok?
    requires option != "--invalid-utf8" ==> SectionsOf(Split(first, ',')).Ok?
    requires OptionPairs(mid)
    ensures ParseFrom([option, first] + mid + [option, second] + rest, has, config)
         == ParseFrom(mid + [option, second] + rest, has, config)
  {
    var pair := [option, first];
    var tail := [option, second] + rest;
    assert pair[2..] == [];
    assert OptionPairs(pair);
    var c1 := AfterOption(pair, config);
    assert [option, first] + mid + [option, second] + rest == pair + (mid + tail);
    assert mid + [option, second] + rest == mid + tail;
    OptionPairStep(pair, mid + tail, has, config);
    assert pair[2..] + (mid + tail) == mid + tail;
    OptionsConsumed(mid, tail, has, c1);
    OptionsConsumed(mid, tail, has, config);
    AfterOptionsKeepsSameExcept(mid, c1, config, option);
    LaterOptionOverwrites(option, second, rest, has, AfterOptions(mid, c1), AfterOptions(mid, config));
  }

  /** The values `--invalid-utf8` accepts, and the abort on any other. */
  lemma InvalidUtf8Values(value: string, rest: seq<string>, has: bool, config: Config)
    ensures value == "lossy" ==> ParseFrom(["--invalid-utf8", value] + rest, has, config)
                                 == ParseFrom(rest, has, config.(decode_strategy := Lossy))
    ensures value == "panic" ==> ParseFrom(["--invalid-utf8", value] + rest, has, config)
                                 == ParseFrom(rest, has, config.(decode_strategy := Panic))
    ensures value == "skip-line" ==> ParseFrom(["--invalid-utf8", value] + rest, has, config)
                                     == ParseFrom(rest, has, config.(decode_strategy := SkipLine))
    ensures value !in {"lossy", "panic", "skip-line"} ==>
      ParseFrom(["--invalid-utf8", value] + rest, has, config) == Err(UnknownStrategy(value))
  {
    assert (["--invalid-utf8", value] + rest)[2..] == rest;
  }

  /** `-h` / `--help` asks for help only as the last remaining argument;
      elsewhere it is taken as the pattern if none has been taken yet, and
      is an unexpected argument otherwise. */
  lemma HelpOnlyWhenLast(help: string, next: string, rest: seq<string>, config: Config)
    requires IsHelp(help)
    ensures ParseFrom([help], false, config) == Err(HelpRequested)
    ensures ParseFrom([help], true, config) == Err(HelpRequested)
    ensures ParseFrom([help, next] + rest, false, config)
         == ParseFrom([next] + rest, true, config.(search_string := help))
    ensures ParseFrom([help, next] + rest, true, config) == Err(UnexpectedArg(help))
  {
    assert ([help, next] + rest)[1..] == [next] + rest;
  }
}
