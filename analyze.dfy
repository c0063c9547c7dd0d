/**
 * The `analyze` command of cmd/analyze.go: validating the command line into
 * an `AnalyzeCommand`, and filtering one line with the search pattern.
 * cobra is abstracted away: the positional arguments, the results of the two
 * flag lookups and the value of the `search` flag are parameters.  The
 * regular-expression engine is a parameter too.
 */
module Cmd {
  import opened Wrappers

  datatype AnalyzeCommand = AnalyzeCommand(filepath: string, searchPattern: string, pattern: seq<string>, json: bool)

  /** `AnalyzeCommand{}` */
  const Zero := AnalyzeCommand("", "", [], false)

  const FilepathRequired := "filepath is required as an argument"
  const SearchEmpty := "Search text is empty"

  /** What a cobra flag lookup yields: the value, or its error. */
  datatype Lookup<T> = Value(value: T) | LookupError(err: string)

  /** `(AnalyzeCommand, error)` returned, or the process exits through `Check`. */
  datatype Built = Returned(command: AnalyzeCommand, err: Option<string>) | Exited(reason: string)

  /**
   * `BuildAnalyzeCommand` with `patternFlag` = `GetStringSlice("pattern")`,
   * `jsonFlag` = `GetBool("json")` and `search` = the `search` flag's value.
   */
  function BuildAnalyzeCommand(args: seq<string>, patternFlag: Lookup<seq<string>>, jsonFlag: Lookup<bool>, search: string): (r: Built)
    // a wrong argument count is reported first, whatever the flags say
    ensures |args| != 1 ==> r == Returned(Zero, Some(FilepathRequired))
    // a failed flag lookup exits with the lookup's error, pattern before json
    ensures |args| == 1 && patternFlag.LookupError? ==> r == Exited(patternFlag.err)
    ensures |args| == 1 && patternFlag.Value? && jsonFlag.LookupError? ==> r == Exited(jsonFlag.err)
    ensures r.Exited? <==> |args| == 1 && (patternFlag.LookupError? || jsonFlag.LookupError?)
    // an empty search is rejected only once the arguments and flags are fine
    ensures r == Returned(Zero, Some(SearchEmpty)) <==>
      |args| == 1 && patternFlag.Value? && jsonFlag.Value? && search == ""
    // every error comes with the zero record
    ensures r.Returned? && r.err.Some? ==> r.command == Zero
    // success, and what the record holds then
    ensures r.Returned? && r.err.None? <==>
      |args| == 1 && patternFlag.Value? && jsonFlag.Value? && search != ""
    ensures r.Returned? && r.err.None? ==>
      r.command.filepath == args[0] && r.command.searchPattern == search &&
      r.command.pattern == patternFlag.value && r.command.json == jsonFlag.value
  {
    if |args| != 1 then Returned(Zero, Some(FilepathRequired))
    else if patternFlag.LookupError? then Exited(patternFlag.err)
    else if jsonFlag.LookupError? then Exited(jsonFlag.err)
    else if search == "" then Returned(Zero, Some(SearchEmpty))
    else Returned(AnalyzeCommand(args[0], search, patternFlag.value, jsonFlag.value), None)
  }

  /** A successful record never carries an empty search pattern, and building it again from its own fields gives it back. */
  lemma BuiltCommandRoundTrip(args: seq<string>, patternFlag: Lookup<seq<string>>, jsonFlag: Lookup<bool>, search: string)
    requires BuildAnalyzeCommand(args, patternFlag, jsonFlag, search).Returned?
    requires BuildAnalyzeCommand(args, patternFlag, jsonFlag, search).err.None?
    ensures var c := BuildAnalyzeCommand(args, patternFlag, jsonFlag, search).command;
      c.searchPattern != "" &&
      args == [c.filepath] && search == c.searchPattern &&
      BuildAnalyzeCommand([c.filepath], Value(c.pattern), Value(c.json), c.searchPattern) ==
        BuildAnalyzeCommand(args, patternFlag, jsonFlag, search)
  {
  }

  /** "Default parameters": `analyze file.log --search=test` with the flags at their defaults. */
  lemma DefaultParameters()
    ensures BuildAnalyzeCommand(["file.log"], Value([]), Value(false), "test") ==
      Returned(AnalyzeCommand("file.log", "test", [], false), None)
  {
  }

  /**
   * "No search pattern" and "Empty search pattern" expect a record holding
   * `file.log` and no error; the code returns the zero record and an error.
   */
  lemma EmptySearchIsAnError()
    ensures BuildAnalyzeCommand(["file.log"], Value([]), Value(false), "") == Returned(Zero, Some(SearchEmpty))
    ensures BuildAnalyzeCommand(["file.log"], Value([]), Value(false), "") != Returned(AnalyzeCommand("file.log", "", [], false), None)
  {
  }

  /** `regexp.Match(pattern, line)`: whether the pattern matches, or its error. */
  datatype Match = Matched(found: bool) | MatchError(err: string)

  /** The lines `analyzeLine` prints, or the exit through `Check`. */
  datatype LineOutput = Printed(lines: seq<string>) | Exit(err: string)

  /** `analyzeLine`: print the line unchanged when the search pattern matches it. */
  function AnalyzeLine(command: AnalyzeCommand, line: string, regexMatch: (string, string) -> Match): (r: LineOutput)
    ensures r == Printed([line]) <==> regexMatch(command.searchPattern, line) == Matched(true)
    ensures r == Printed([]) <==> regexMatch(command.searchPattern, line) == Matched(false)
    ensures r.Exit? <==> regexMatch(command.searchPattern, line).MatchError?
    ensures r.Exit? ==> r.err == regexMatch(command.searchPattern, line).err
    ensures r.Printed? ==> |r.lines| <= 1 && forall k :: 0 <= k < |r.lines| ==> r.lines[k] == line
  {
    match regexMatch(command.searchPattern, line)
    case MatchError(err) => Exit(err)
    case Matched(found) => if found then Printed([line]) else Printed([])
  }
}
