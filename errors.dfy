/**
 * The error classes of the gateway (`BaseError` and its subclasses, and the
 * MCP server's `ToolError`), together with JavaScript's plain `Error`, as one
 * datatype. `Message()` builds the text each constructor passes to `super`,
 * and `Name()` the value of the `name` property.
 */
module Errors {
  import opened Wrappers
  import opened Text

  /** The context record the CallTool handler logs and attaches to EXECUTION_FAILED. */
  datatype CommandContext = CommandContext(
    requestId: string,
    command: string,
    args: seq<string>,
    timeout: Option<int>,
    workDir: Option<string>,
    env: Option<map<string, string>>)

  /** The `details` attached to a `ToolError`. */
  datatype Details =
    | NoDetails
    | DuplicateTool(toolName: string, existingTools: seq<string>)
    | CommandNotFound(command: string)
    | Context(context: CommandContext)

  datatype Error =
    | Plain(message: string)                                    // new Error(message)
    | CommandValidation(command: string, reason: string)
    | CommandExecution(command: string, exitCode: int, stderr: string)
    | CommandTimeout(command: string, timeout: int)
    | Security(detail: string)
    | ToolError(code: string, message: string, details: Details)
  {
    /** The `message` property of the thrown object. */
    function Message(): string {
      match this
      case Plain(m) => m
      case CommandValidation(c, reason) => ValidationPrefix + c + "): " + reason
      case CommandExecution(c, code, _) => ExecutionPrefix + c + "): exit code " + IntToString(code)
      case CommandTimeout(c, t) => TimeoutPrefix + c + "): " + IntToString(t) + "ms"
      case Security(d) => SecurityPrefix + d
      case ToolError(_, m, _) => m
    }

    /** The `name` property: the class name for `BaseError` subclasses, set explicitly for `ToolError`. */
    function Name(): string {
      match this
      case Plain(_) => "Error"
      case CommandValidation(_, _) => "CommandValidationError"
      case CommandExecution(_, _, _) => "CommandExecutionError"
      case CommandTimeout(_, _) => "CommandTimeoutError"
      case Security(_) => "SecurityError"
      case ToolError(_, _, _) => "ToolError"
    }
  }

  const ValidationPrefix := "Command validation failed ("
  const ExecutionPrefix := "Command execution failed ("
  const TimeoutPrefix := "Command execution timeout ("
  const SecurityPrefix := "Security check failed: "

  /** The exit code can be read back from the end of a CommandExecutionError's message. */
  lemma ExecutionMessageExitCode(command: string, exitCode: int, stderr: string)
    ensures var m := CommandExecution(command, exitCode, stderr).Message();
            StartsWith(m, ExecutionPrefix + command + "): ") && TrailingInt(m) == exitCode
  {
    var a := ExecutionPrefix + command;
    var p := a + "): exit code ";
    var m := CommandExecution(command, exitCode, stderr).Message();
    assert m == p + IntToString(exitCode);
    assert p[|p| - 1] == ' ';
    TrailingIntAppend(p, exitCode);
    assert m[..|a| + 3] == a + "): " by {
      assert m[..|a| + 3] == p[..|a| + 3];
      assert p[..|a| + 3] == a + p[|a|..|a| + 3];
    }
  }

  /** Two CommandExecutionErrors with the same message report the same exit code. */
  lemma ExecutionMessageDeterminesExitCode(c1: string, x1: int, s1: string, c2: string, x2: int, s2: string)
    requires CommandExecution(c1, x1, s1).Message() == CommandExecution(c2, x2, s2).Message()
    ensures x1 == x2
  {
    ExecutionMessageExitCode(c1, x1, s1);
    ExecutionMessageExitCode(c2, x2, s2);
  }

  /** The timeout can be read back from a CommandTimeoutError's message, just before its "ms" suffix. */
  lemma TimeoutMessageTimeout(command: string, timeout: int)
    ensures var m := CommandTimeout(command, timeout).Message();
            StartsWith(m, TimeoutPrefix + command + "): ") && EndsWith(m, "ms")
            && TrailingInt(m[..|m| - 2]) == timeout
  {
    var p := TimeoutPrefix + command + "): ";
    assert p[|p| - 1] == ' ';
    TrailingIntBeforeSuffix(p, timeout, "ms");
    assert CommandTimeout(command, timeout).Message() == p + IntToString(timeout) + "ms";
  }

  /** The reason of a CommandValidationError is the tail of its message after the command. */
  lemma ValidationMessageReason(command: string, reason: string)
    ensures var m := CommandValidation(command, reason).Message();
            var head := ValidationPrefix + command + "): ";
            StartsWith(m, head) && m[|head|..] == reason
  {
    var head := ValidationPrefix + command + "): ";
    assert CommandValidation(command, reason).Message() == head + reason;
  }

  /** For a fixed command, the message of a CommandValidationError determines its reason. */
  lemma ValidationMessageDeterminesReason(command: string, r1: string, r2: string)
    requires CommandValidation(command, r1).Message() == CommandValidation(command, r2).Message()
    ensures r1 == r2
  {
    ValidationMessageReason(command, r1);
    ValidationMessageReason(command, r2);
  }

  /** A SecurityError's message is its detail behind a fixed prefix, so the detail is recovered exactly. */
  lemma SecurityMessageDetail(detail: string)
    ensures var m := Security(detail).Message();
            StartsWith(m, SecurityPrefix) && m[|SecurityPrefix|..] == detail
  {
  }

  /** A ToolError carries its code and details and uses its message unchanged. */
  lemma ToolErrorKeepsFields(code: string, message: string, details: Details)
    ensures var e := ToolError(code, message, details);
            e.Message() == message && e.code == code && e.details == details && e.Name() == "ToolError"
  {
  }
}
