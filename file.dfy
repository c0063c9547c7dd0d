/**
 * file/file.go repeats `BuildAnalyzeCommand` of cmd/analyze.go line for line
 * (with its own copy of the `AnalyzeCommand` record), so `Cmd.BuildAnalyzeCommand`
 * models both.  What is stated here is how that copy treats the cases of
 * file/file_test.go.  The command that test builds declares only `search`, so
 * only "No filepath argument" is stated as the test runs it; the three
 * one-argument cases exit at the `pattern` lookup (`UndeclaredPatternFlagExits`).
 */
module File {
  import opened Wrappers
  import opened Cmd

  /**
   * file/file.go:33-35: once both flags are declared and read, an empty search
   * text gives the zero record and its error.
   */
  lemma EmptySearchRejected(patterns: seq<string>, json: bool)
    ensures BuildAnalyzeCommand(["file.log"], Value(patterns), Value(json), "") == Returned(Zero, Some(SearchEmpty))
  {
  }

  /** "No filepath argument": no positional argument, whatever the flags and the search text. */
  lemma NoFilepathRejected(patternFlag: Lookup<seq<string>>, jsonFlag: Lookup<bool>, search: string)
    ensures BuildAnalyzeCommand([], patternFlag, jsonFlag, search) == Returned(Zero, Some(FilepathRequired))
  {
  }

  /**
   * With no arguments and an empty search the argument count is what is
   * reported: its check comes first.
   */
  lemma ArgumentCheckFirst(patternFlag: Lookup<seq<string>>, jsonFlag: Lookup<bool>)
    ensures BuildAnalyzeCommand([], patternFlag, jsonFlag, "").err == Some(FilepathRequired)
  {
  }

  /**
   * The command that file/file_test.go builds declares only `search`, so the
   * `pattern` lookup fails and a call with one argument exits instead of
   * returning.
   */
  lemma UndeclaredPatternFlagExits(err: string, jsonFlag: Lookup<bool>, search: string)
    ensures BuildAnalyzeCommand(["file.log"], LookupError(err), jsonFlag, search) == Exited(err)
  {
  }
}
