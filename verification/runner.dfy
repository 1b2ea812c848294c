/**
 * `run`: build the full command line, execute it, classify the exit code,
 * and reset the builder only when the code is a success. Process execution
 * itself is not modelled: its exit code is an input.
 */
module Runner {
  import opened Outcomes
  import opened State
  import opened Assembly
  import opened ExitCodes

  /** What a run produced: the command it executed, its result, and the builder afterwards. */
  datatype RunResult = RunResult(commandLine: string, outcome: Result<int, SevenZipError>, after: SevenZip)

  /** `getFullPathToSevenZipExecutable`. */
  function FullPathToSevenZipExecutable(b: SevenZip): (r: string)
    ensures b.pathToBinary <= r && r[|b.pathToBinary|..] == SevenZipExecutable
  {
    b.pathToBinary + SevenZipExecutable
  }

  /** The escaped executable path, one space, then the argument string. */
  function CommandLine(b: SevenZip, esc: Escaper): (r: string)
    ensures var exe := esc(FullPathToSevenZipExecutable(b));
      exe + " " <= r && r[|exe| + 1..] == ConstructArgs(b, esc)
  {
    esc(FullPathToSevenZipExecutable(b)) + " " + ConstructArgs(b, esc)
  }

  /**
   * `run` given the exit code the process returned: classify first, so a
   * failing code raises before anything is cleared; a passing code clears
   * the builder and is returned.
   */
  function Run(b: SevenZip, esc: Escaper, exitCode: int): (r: RunResult)
    ensures r.commandLine == esc(FullPathToSevenZipExecutable(b)) + " " + ConstructArgs(b, esc)
    ensures r.outcome.Success? <==> exitCode <= 1
    ensures r.outcome.Success? ==> r.outcome.value == exitCode && r.after == New(b.pathToBinary)
    ensures r.outcome.Failure? ==> r.after == b && r.outcome.error.code == exitCode
    ensures r.outcome.Failure? ==> Fail(r.outcome.error) == CheckResultCode(exitCode)
  {
    var commandLine := CommandLine(b, esc);
    match CheckResultCode(exitCode)
    case Fail(e) => RunResult(commandLine, Failure(e), b)
    case Pass => RunResult(commandLine, Success(exitCode), ClearParams(b))
  }

  /** After a successful run the builder assembles an empty argument string. */
  lemma SuccessLeavesNoArgs(b: SevenZip, esc: Escaper, exitCode: int)
    requires exitCode <= 1
    ensures Blank(Run(b, esc, exitCode).after)
    ensures ConstructArgs(Run(b, esc, exitCode).after, esc) == ""
    ensures CommandLine(Run(b, esc, exitCode).after, esc) == esc(FullPathToSevenZipExecutable(b)) + " "
  {
    var a := Run(b, esc, exitCode).after;
    assert ConstructOptions(a, esc) == "";
    assert ConstructInputFiles(a.inputFiles, esc) == "";
  }

  /** A failed run leaves the builder as it was, so running it again issues the same command. */
  lemma RetryRepeatsCommand(b: SevenZip, esc: Escaper, first: int, second: int)
    requires first > 1
    ensures Run(Run(b, esc, first).after, esc, second).commandLine == Run(b, esc, first).commandLine
  {
  }
}
