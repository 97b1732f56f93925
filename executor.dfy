/**
 * The command executor. The child process is an abstract handle: the model
 * records what it was spawned with, the output chunks it delivers and the
 * signals sent to it, and its `exit` event is the method `OnExit`. The status
 * stream is a channel of `CommandStatus` events that can be closed. Timers
 * are not modelled; the clock is the explicit parameter `now`.
 */
module Executor {
  import opened Wrappers
  import opened Text
  import opened Errors
  import opened Types
  import opened Security
  import opened Cache
  import Allowlist

  /** What a readable stream's controller throws on `enqueue` or `close` once it is closed. */
  const ClosedStreamError := Plain("Invalid state: Controller is already closed")

  /** The controller side of the `status` stream: the events enqueued so far, and whether it is closed. */
  class StatusChannel {
    var events: seq<CommandStatus>
    var closed: bool

    constructor()
      ensures events == [] && !closed
    {
      events := [];
      closed := false;
    }

    /** `controller.enqueue(status)`: appends the event, or throws once the stream is closed. */
    method Enqueue(status: CommandStatus) returns (r: Outcome<Error>)
      modifies this
      ensures old(closed) ==> r == Fail(ClosedStreamError) && events == old(events) && closed
      ensures !old(closed) ==> r == Pass && events == old(events) + [status] && !closed
    {
      if closed {
        return Fail(ClosedStreamError);
      }
      events := events + [status];
      return Pass;
    }

    /** `controller.close()`: closes the stream, or throws if it is already closed. */
    method Close() returns (r: Outcome<Error>)
      modifies this
      ensures old(closed) ==> r == Fail(ClosedStreamError)
      ensures !old(closed) ==> r == Pass
      ensures events == old(events) && closed
    {
      if closed {
        return Fail(ClosedStreamError);
      }
      closed := true;
      return Pass;
    }
  }

  /**
   * A spawned child process: the parameters given to `spawn`, the chunks its
   * `data` events have delivered on standard output and standard error, and
   * the signals sent to it by `kill`.
   */
  class ChildProcess {
    const file: string
    const args: seq<string>
    const cwd: Option<string>
    const env: map<string, string>
    var stdoutChunks: seq<string>
    var stderrChunks: seq<string>
    var signals: seq<string>

    /** `spawn(file, args, { cwd, env })` */
    constructor(file: string, args: seq<string>, cwd: Option<string>, env: map<string, string>)
      ensures this.file == file && this.args == args && this.cwd == cwd && this.env == env
      ensures stdoutChunks == [] && stderrChunks == [] && signals == []
    {
      this.file := file;
      this.args := args;
      this.cwd := cwd;
      this.env := env;
      stdoutChunks := [];
      stderrChunks := [];
      signals := [];
    }

    /** A `data` event on standard output: the chunk is pushed onto the collected output. */
    method OnStdoutData(chunk: string)
      modifies this
      ensures stdoutChunks == old(stdoutChunks) + [chunk]
      ensures stderrChunks == old(stderrChunks) && signals == old(signals)
    {
      stdoutChunks := stdoutChunks + [chunk];
    }

    /** A `data` event on standard error. */
    method OnStderrData(chunk: string)
      modifies this
      ensures stderrChunks == old(stderrChunks) + [chunk]
      ensures stdoutChunks == old(stdoutChunks) && signals == old(signals)
    {
      stderrChunks := stderrChunks + [chunk];
    }

    /** `kill(signal)` */
    method Kill(signal: string)
      modifies this
      ensures signals == old(signals) + [signal]
      ensures stdoutChunks == old(stdoutChunks) && stderrChunks == old(stderrChunks)
    {
      signals := signals + [signal];
    }
  }

  /**
   * The `CommandStream` that `execute` resolves to: either the live process
   * with its status channel, or a replay of a cached result, whose three
   * streams each hold their whole content and are already closed.
   */
  datatype CommandStream =
    | Live(process: ChildProcess, channel: StatusChannel)
    | Replay(stdout: seq<string>, stderr: seq<string>, status: seq<CommandStatus>)

  /** `createStreamFromCache`: one chunk of output per stream and a single `completed` event. */
  function CreateStreamFromCache(result: CommandResult): (s: CommandStream)
    ensures s.Replay?
    ensures Concat(s.stdout) == result.stdout && Concat(s.stderr) == result.stderr
    ensures |s.status| == 1 && ExitCodeOf(s.status[0]) == Some(result.exitCode)
  {
    assert Concat([result.stdout]) == Concat([]) + result.stdout;
    assert Concat([result.stderr]) == Concat([]) + result.stderr;
    Replay([result.stdout], [result.stderr], [Completed(result.exitCode)])
  }

  /** The result the `exit` handler assembles: the output in arrival order, and a missing exit code read as 0. */
  function ExitResult(stdoutChunks: seq<string>, stderrChunks: seq<string>, code: Option<int>): CommandResult {
    CommandResult(Concat(stdoutChunks), Concat(stderrChunks), code.GetOr(0))
  }

  /** Output delivered in two parts is assembled as if it had come in one sequence of chunks. */
  lemma {:induction false} ExitResultAppend(out: seq<string>, err: seq<string>, chunk: string, code: Option<int>)
    ensures ExitResult(out + [chunk], err, code).stdout == ExitResult(out, err, code).stdout + chunk
    ensures ExitResult(out, err + [chunk], code).stderr == ExitResult(out, err, code).stderr + chunk
    ensures ExitResult(out, err, code).exitCode == (if code.Some? then code.value else 0)
  {
    ConcatAppend(out, chunk);
    ConcatAppend(err, chunk);
  }

  /** `if (options.cwd)`: the working directory is checked only when it is given and non-empty. */
  predicate ChecksCwd(options: CommandOptions) {
    options.cwd.Some? && options.cwd.value != ""
  }

  class CommandExecutor {
    var process: ChildProcess?
    var statusController: StatusChannel?
    const cache: CommandCache
    /** `path.normalize`, as used by the security checker. */
    const normalize: string -> string

    constructor(cache: CommandCache, normalize: string -> string)
      ensures process == null && statusController == null
      ensures this.cache == cache && this.normalize == normalize
    {
      process := null;
      statusController := null;
      this.cache := cache;
      this.normalize := normalize;
    }

    /**
     * `execute`. `spawnError` is the exception `spawn` throws synchronously,
     * if it does. In order: a fresh cached result is replayed; otherwise a
     * restricted working directory is refused before anything is created;
     * otherwise a new status channel is made current, and either the spawn
     * failure is reported on it (an `error` event, then close, then the
     * rethrow), or the process is spawned with the filtered environment and
     * `running` is enqueued.
     */
    method Execute(command: string, args: seq<string>, options: CommandOptions, now: int, spawnError: Option<Error>)
      returns (r: Result<CommandStream, Error>)
      modifies this, cache
      ensures cache.entries == AfterGet(old(cache.entries), GenerateKey(command, args), now)
      ensures var hit := Cached(old(cache.entries), GenerateKey(command, args), now);
              hit.Some? ==> r == Success(CreateStreamFromCache(hit.value))
                            && process == old(process) && statusController == old(statusController)
      ensures var hit := Cached(old(cache.entries), GenerateKey(command, args), now);
              var refused := ChecksCwd(options) && PathVerdict(normalize, options.cwd.value).Fail?;
              hit.None? && refused ==>
                r == Failure(PathVerdict(normalize, options.cwd.value).error)
                && process == old(process) && statusController == old(statusController)
      ensures var hit := Cached(old(cache.entries), GenerateKey(command, args), now);
              var refused := ChecksCwd(options) && PathVerdict(normalize, options.cwd.value).Fail?;
              hit.None? && !refused && spawnError.Some? ==>
                r == Failure(spawnError.value) && process == old(process)
                && statusController != null && fresh(statusController)
                && statusController.events == [Errored(spawnError.value)] && statusController.closed
      ensures var hit := Cached(old(cache.entries), GenerateKey(command, args), now);
              var refused := ChecksCwd(options) && PathVerdict(normalize, options.cwd.value).Fail?;
              hit.None? && !refused && spawnError.None? ==>
                process != null && fresh(process) && statusController != null && fresh(statusController)
                && r == Success(Live(process, statusController))
                && process.file == command && process.args == args && process.cwd == options.cwd
                && process.env == FilterEnv(options.env.GetOr(map[]))
                && process.stdoutChunks == [] && process.stderrChunks == [] && process.signals == []
                && statusController.events == [Running] && !statusController.closed
    {
      var cached := cache.Get(command, args, now);
      if cached.Some? {
        return Success(CreateStreamFromCache(cached.value));
      }

      if options.cwd.Some? && options.cwd.value != "" {
        var pathCheck := ValidatePath(normalize, options.cwd.value);
        if pathCheck.Fail? {
          return Failure(pathCheck.error);
        }
      }

      var sanitizedEnv := ValidateEnv(options.env.GetOr(map[]));

      var status := new StatusChannel();
      statusController := status;

      if spawnError.Some? {
        var _ := status.Enqueue(Errored(spawnError.value));
        var _ := status.Close();
        return Failure(spawnError.value);
      }

      var p := new ChildProcess(command, args, options.cwd, sanitizedEnv);
      process := p;
      var _ := status.Enqueue(Running);
      return Success(Live(p, status));
    }

    /**
     * The `exit` handler of process `p`. The output is checked against the
     * size limit before anything else happens, so an oversized result is
     * neither cached nor reported. Otherwise the result is cached under the
     * command and arguments `p` was spawned with, and `completed` is
     * enqueued on the current status channel, which is then closed. A
     * failure is the exception the handler throws.
     */
    method OnExit(p: ChildProcess, code: Option<int>, now: int) returns (r: Outcome<Error>)
      modifies cache, statusController
      ensures var result := ExitResult(old(p.stdoutChunks), old(p.stderrChunks), code);
              ValidateOutputSize(result.stdout).Fail? ==>
                r == ValidateOutputSize(result.stdout)
                && cache.entries == old(cache.entries)
                && (statusController != null ==> statusController.events == old(statusController.events)
                                                 && statusController.closed == old(statusController.closed))
      ensures var result := ExitResult(old(p.stdoutChunks), old(p.stderrChunks), code);
              ValidateOutputSize(result.stdout).Pass? ==>
                cache.entries == old(cache.entries)[GenerateKey(p.file, p.args) := CacheEntry(result, now, DefaultTtl)]
                && (statusController == null ==> r == Pass)
                && (statusController != null && !old(statusController.closed) ==>
                      r == Pass && statusController.events == old(statusController.events) + [Completed(result.exitCode)]
                      && statusController.closed)
                && (statusController != null && old(statusController.closed) ==>
                      r == Fail(ClosedStreamError) && statusController.events == old(statusController.events)
                      && statusController.closed)
    {
      var result := ExitResult(p.stdoutChunks, p.stderrChunks, code);

      var sizeCheck := ValidateOutputSize(result.stdout);
      if sizeCheck.Fail? {
        return sizeCheck;
      }

      cache.Set(p.file, p.args, result, now);

      if statusController != null {
        var e := statusController.Enqueue(Completed(result.exitCode));
        if e.Fail? {
          return e;
        }
        r := statusController.Close();
        return;
      }
      return Pass;
    }

    /**
     * `interrupt`: with no process ever spawned it does nothing; otherwise it
     * enqueues `interrupted` on the current status channel and sends SIGINT.
     * On a closed channel the enqueue throws, and no signal is sent.
     */
    method Interrupt() returns (r: Outcome<Error>)
      modifies process, statusController
      ensures process == null ==> r == Pass
                                  && (statusController != null ==> statusController.events == old(statusController.events)
                                                                   && statusController.closed == old(statusController.closed))
      ensures process != null ==> process.stdoutChunks == old(process.stdoutChunks)
                                  && process.stderrChunks == old(process.stderrChunks)
      ensures process != null && statusController == null ==>
                r == Pass && process.signals == old(process.signals) + ["SIGINT"]
      ensures process != null && statusController != null && !old(statusController.closed) ==>
                r == Pass && statusController.events == old(statusController.events) + [Interrupted]
                && !statusController.closed && process.signals == old(process.signals) + ["SIGINT"]
      ensures process != null && statusController != null && old(statusController.closed) ==>
                r == Fail(ClosedStreamError) && statusController.events == old(statusController.events)
                && statusController.closed && process.signals == old(process.signals)
    {
      if process != null {
        if statusController != null {
          r := statusController.Enqueue(Interrupted);
          if r.Fail? {
            return;
          }
        }
        process.Kill("SIGINT");
      }
      return Pass;
    }
  }

  /** The `data` events of a run: each stdout chunk in order, then each stderr chunk. */
  method DeliverOutput(p: ChildProcess, out: seq<string>, err: seq<string>)
    modifies p
    ensures p.stdoutChunks == old(p.stdoutChunks) + out && p.stderrChunks == old(p.stderrChunks) + err
    ensures p.signals == old(p.signals)
  {
    var i := 0;
    while i < |out|
      invariant 0 <= i <= |out|
      invariant p.stdoutChunks == old(p.stdoutChunks) + out[..i] && p.stderrChunks == old(p.stderrChunks)
      invariant p.signals == old(p.signals)
    {
      p.OnStdoutData(out[i]);
      assert out[..i + 1] == out[..i] + [out[i]];
      i := i + 1;
    }
    assert out[..|out|] == out;
    var j := 0;
    while j < |err|
      invariant 0 <= j <= |err|
      invariant p.stdoutChunks == old(p.stdoutChunks) + out && p.stderrChunks == old(p.stderrChunks) + err[..j]
      invariant p.signals == old(p.signals)
    {
      p.OnStderrData(err[j]);
      assert err[..j + 1] == err[..j] + [err[j]];
      j := j + 1;
    }
    assert err[..|err|] == err;
  }

  /**
   * One command's life on a cache miss: `execute` spawns it, its output
   * arrives in chunks, and it exits. The status channel then holds exactly
   * `running` followed by `completed`, and is closed. A second `execute` of
   * the same command and arguments within the ttl is answered from the cache,
   * whatever its options, and spawns nothing.
   */
  method RunThenReplay(exec: CommandExecutor, command: string, args: seq<string>, options: CommandOptions,
                       out: seq<string>, err: seq<string>, code: Option<int>,
                       now: int, laterOptions: CommandOptions, later: int, laterSpawnError: Option<Error>)
    returns (first: Result<CommandStream, Error>, second: Result<CommandStream, Error>)
    requires Cached(exec.cache.entries, GenerateKey(command, args), now).None?
    requires !(ChecksCwd(options) && PathVerdict(exec.normalize, options.cwd.value).Fail?)
    requires |Concat(out)| <= Allowlist.Settings.maxOutputSize
    requires now <= later <= now + DefaultTtl
    modifies exec, exec.cache
    ensures first.Success? && first.value.Live?
    ensures first.value.channel.events == [Running, Completed(code.GetOr(0))] && first.value.channel.closed
    ensures first.value.process.stdoutChunks == out && first.value.process.stderrChunks == err
    ensures second == Success(CreateStreamFromCache(ExitResult(out, err, code)))
    ensures exec.process == first.value.process
  {
    first := exec.Execute(command, args, options, now, None);
    var p := first.value.process;
    var status := first.value.channel;
    var key := GenerateKey(command, args);
    ghost var entries := exec.cache.entries;
    assert entries == AfterGet(old(exec.cache.entries), key, now);

    DeliverOutput(p, out, err);
    assert p.stdoutChunks == out && p.stderrChunks == err;
    var result := ExitResult(out, err, code);
    assert ValidateOutputSize(result.stdout).Pass?;
    var exited := exec.OnExit(p, code, now);
    assert exec.cache.entries == entries[key := CacheEntry(result, now, DefaultTtl)];
    SetThenGet(entries, key, result, now, DefaultTtl, later);

    second := exec.Execute(command, args, laterOptions, later, laterSpawnError);
  }
}
