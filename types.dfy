/** The result, status and option records shared by the executor, the cache and the server. */
module Types {
  import opened Wrappers
  import opened Text
  import opened Errors

  /** The options `execute` accepts; each field may be absent. */
  datatype CommandOptions = CommandOptions(timeout: Option<int>, cwd: Option<string>, env: Option<map<string, string>>)

  /** What a finished command produced. */
  datatype CommandResult = CommandResult(stdout: string, stderr: string, exitCode: int)

  /** One event on a command's status stream; only `Completed` carries an exit code. */
  datatype CommandStatus =
    | Running
    | Completed(exitCode: int)
    | Errored(error: Error)
    | Interrupted
  {
    /** The `type` tag of the status object. */
    function Type(): string {
      match this
      case Running => "running"
      case Completed(_) => "completed"
      case Errored(_) => "error"
      case Interrupted => "interrupted"
    }
  }

  /** The exit code a status event reports, if any. */
  function ExitCodeOf(s: CommandStatus): (r: Option<int>)
    ensures r.Some? <==> s.Type() == "completed"
    ensures r.Some? ==> s == Completed(r.value)
  {
    if s.Completed? then Some(s.exitCode) else None
  }

  /** Distinct status variants carry distinct `type` tags. */
  lemma TypeTagsDistinct(s: CommandStatus, t: CommandStatus)
    requires s.Type() == t.Type()
    ensures s.Running? == t.Running? && s.Completed? == t.Completed?
    ensures s.Errored? == t.Errored? && s.Interrupted? == t.Interrupted?
  {
  }

  /** `CommandError`: a failed command, with its exit code and captured standard error. */
  datatype CommandError = CommandError(command: string, exitCode: int, stderr: string) {
    function Message(): string {
      "Command failed: " + command + " (exit code: " + IntToString(exitCode) + ")"
    }
  }

  /** The exit code is written just before the closing parenthesis of a CommandError's message. */
  lemma CommandErrorMessageExitCode(command: string, exitCode: int, stderr: string)
    ensures var m := CommandError(command, exitCode, stderr).Message();
            StartsWith(m, "Command failed: " + command + " (exit code: ") && EndsWith(m, ")")
            && TrailingInt(m[..|m| - 1]) == exitCode
  {
    var p := "Command failed: " + command + " (exit code: ";
    assert p[|p| - 1] == ' ';
    TrailingIntBeforeSuffix(p, exitCode, ")");
    assert CommandError(command, exitCode, stderr).Message() == p + IntToString(exitCode) + ")";
  }
}
