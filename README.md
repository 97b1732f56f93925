# shell-mcp command gateway — a Dafny model

This project models the core of `shell-mcp`, an MCP server that lets a client
run a small allowlisted set of diagnostic shell commands (`ls`, `pwd`, `echo`,
`ps`, `df`, `free`, `uptime`, `date`). It covers:

- the static allowlist and security constants;
- the command validator: allowlist lookup, argument check, metacharacter filter, whitespace tokeniser;
- the security checker: restricted-path prefix test, environment allowlist, output-size bound;
- the TTL result cache, with lazy eviction on read and a sweep;
- the executor's decision logic: cache-first replay, checks before spawn, the status stream, result assembly on exit, interrupt;
- the tool server's tool-list derivation, name-uniqueness check, and the CallTool handler up to the call of `execute`;
- the error classes' messages and the result and status records.

Modules follow the source files. `Wrappers` and `Text` are helpers that stand in
for JavaScript's `null`, exceptions and string built-ins:

| file | module | source |
|---|---|---|
| `wrappers.dfy` | `Wrappers` | `Option`, `Result`, `Outcome` for `null` and thrown errors |
| `text.dfy` | `Text` | `startsWith`, `replace` (first occurrence), `join`, chunk concatenation, `${n}` |
| `errors.dfy` | `Errors` | `src/utils/errors.ts` |
| `types.dfy` | `Types` | `src/types/index.ts` |
| `allowlist.dfy` | `Allowlist` | `src/config/allowlist.ts` |
| `validator.dfy` | `Validator` | `src/core/validator.ts` |
| `security.dfy` | `Security` | `src/utils/security.ts` |
| `cache.dfy` | `Cache` | `src/utils/cache.ts` |
| `executor.dfy` | `Executor` | `src/core/executor.ts` |
| `server.dfy` | `Server` | `src/mcp/server.ts` |

Modelling choices:

- `allowedCommands` is a sequence of `(key, config)` pairs in insertion order.
  This is the order `Object.entries` yields, and the tool list follows it.
- The clock is an explicit `now` parameter, in milliseconds.
- `path.normalize` is a function parameter `normalize`. Every path property is stated over its result.
- The cache, the executor, the status stream's controller and the child process are classes whose methods update their fields.
- The child process is an abstract handle. It records its spawn parameters, the output chunks its `data` events deliver and the signals sent to it.
- Its `exit` event is the method `CommandExecutor.OnExit`.
- A synchronous `spawn` failure is the parameter `spawnError` of `Execute`.
- The status stream is a `StatusChannel` of events plus a closed flag.
  `enqueue` and `close` on a closed channel throw, as a `ReadableStreamDefaultController` does.
- Thrown errors are `Failure`/`Fail` values of the `Errors.Error` datatype. Its `Message()` builds the message the constructor passes to `super`.

The model reproduces the key mismatch between the validator and the shipped table. The validator and the CallTool handler look up `shell.<name>`, and no shipped key has that prefix, so every command is rejected. The model does not repair this (see Findings).

## Model

| member | source | states |
|---|---|---|
| `Allowlist.Lookup` | src/core/validator.ts:7 | `table[key]` is present iff some entry has that key, is that entry's config, and with distinct keys is the config of every entry under the key |
| `Allowlist.EntriesNamedByKey` | src/config/allowlist.ts:10-56 | the shipped keys are distinct and non-empty, and every entry's `command` equals its key |
| `Allowlist.NoKeyHasShellPrefix` | src/config/allowlist.ts:10-56 | no shipped key begins with `shell.` |
| `Allowlist.ArgFreeEntries` | src/config/allowlist.ts:17-49 | an entry has no `allowedArgs` exactly when it is `pwd`, `echo` or `uptime` |
| `Allowlist.TimeoutsWithinDefault` | src/config/allowlist.ts:10-61 | every entry has a timeout, and none exceeds `defaultTimeout` (5000) |
| `Allowlist.NoWorkDirOrEnv` | src/config/allowlist.ts:10-56 | no shipped entry sets `workDir` or `env` |
| `Validator.ValidateCommandIn` | src/core/validator.ts:4-23 | fails with '不允許的命令' iff `shell.`+command is not a key; otherwise returns that key's config iff the arguments pass, and fails with '不允許的參數' iff they do not |
| `Validator.UnrestrictedArgsAccepted` | src/core/validator.ts:14-22 | with no `allowedArgs`, or no arguments, every argument list is accepted and the config returned |
| `Validator.UnlistedArgumentRejected` | src/core/validator.ts:14-20 | one argument not literally in `allowedArgs` makes validation fail |
| `Validator.ShellKeyNotShipped` | src/core/validator.ts:6-7 | the key `shell.`+command is never a shipped key |
| `Validator.ShippedTableRejectsEveryCommand` | src/core/validator.ts:6-11 | with the shipped table, every command and argument list is rejected as not allowed |
| `Validator.SanitizeInput` | src/core/validator.ts:25-28 | the output has no metacharacter and is no longer than the input |
| `Validator.SanitizeAppend` | src/core/validator.ts:27 | sanitising distributes over concatenation, so characters are kept in order |
| `Validator.SanitizeCounts` | src/core/validator.ts:27 | each metacharacter occurs 0 times in the output; every other character keeps its number of occurrences |
| `Validator.SanitizeFixedIff` | src/core/validator.ts:27 | the input is returned unchanged iff it holds no metacharacter |
| `Validator.SanitizeIdempotent` | src/core/validator.ts:25-28 | sanitising twice equals sanitising once |
| `Validator.SanitizeDropsOne` | src/core/validator.ts:27 | one metacharacter between two clean texts is deleted, joining them |
| `Validator.SanitizePipeExample` | src/core/__tests__/validator.test.ts:42 | the test input `ls`, blank, pipe, blank, `grep test` becomes `'ls  grep test'`, with two blanks |
| `Validator.SanitizeSemicolonExample` | src/core/validator.ts:27 | `'echo hello; rm -rf /'` becomes `'echo hello rm -rf /'`, with one blank |
| `Validator.LeadingSpaces` | src/core/validator.ts:31 | the leading white-space run is all white space and is maximal |
| `Validator.TrailingSpaces` | src/core/validator.ts:31 | the trailing white-space run is all white space and is maximal |
| `Validator.Trim` | src/core/validator.ts:31 | `trim` yields a slice of the input framed by white space, empty iff the input is all white space, otherwise with non-blank ends |
| `Validator.TrimUnique` | src/core/validator.ts:31 | a non-blank-ended text framed by white-space runs trims to exactly that text |
| `Validator.FirstSpace` | src/core/validator.ts:31 | index of the first white space, with none before it |
| `Validator.SplitOnSpaceRuns` | src/core/validator.ts:31 | `split(/\s+/)` yields at least one piece, and no piece holds white space |
| `Validator.SplitJoinsToCollapsed` | src/core/validator.ts:31 | joining the pieces with single blanks gives the input with every white-space run collapsed to one blank |
| `Validator.SplitJoinRoundTrip` | src/core/validator.ts:31 | splitting the single-blank join of non-empty, blank-free words gives the words back |
| `Validator.SplitTrimmedNonEmpty` | src/core/validator.ts:31 | a trimmed non-empty text splits into non-empty pieces only |
| `Validator.SplitAsCollapsed` | src/core/validator.ts:31 | a trimmed text splits exactly as its collapsed form does |
| `Validator.Words` | src/core/validator.ts:31 | `trim().split(/\s+/)` is `[""]` iff the input is blank, and otherwise has only non-empty, blank-free pieces |
| `Validator.ParseCommand` | src/core/validator.ts:30-36 | the command is the sanitised first piece; the arguments are the other pieces, each sanitised, same number and order |
| `Validator.ParseBlank` | src/core/validator.ts:31-33 | empty or blank input parses to `('', [])` without an error |
| `Validator.ParseCleanWords` | src/core/validator.ts:30-36 | when no piece holds a metacharacter, the pieces are returned unchanged |
| `Validator.ThreeWords` | src/core/validator.ts:31 | three words separated by white-space runs, with trailing white space, split into those words |
| `Validator.TwoWords` | src/core/validator.ts:31 | two words separated by a white-space run split into those words |
| `Validator.ParseThreeCleanWords` | src/core/validator.ts:30-36 | three metacharacter-free words separated by white-space runs, with trailing white space, parse into the first as command and the other two as arguments |
| `Validator.ParseExtraBlanksExample` | src/core/__tests__/validator.test.ts:59-62 | `'ls   -l    -a  '` parses to `('ls', ['-l', '-a'])` |
| `Validator.ParseKeepsEmptiedArgument` | src/core/validator.ts:31-33 | `'ls ;'` parses to `('ls', [''])`: a piece made only of stripped characters stays as an empty argument |
| `Security.FirstRestricted` | src/utils/security.ts:21-25 | the first restricted prefix, in table order, that the path starts with; none iff no prefix matches |
| `Security.ValidatePath` | src/utils/security.ts:17-26 | fails iff the normalised path starts with one of `/etc`, `/usr`, `/var`, `/root`, and reports the first such prefix in table order |
| `Security.PrefixNotDirectory` | src/utils/security.ts:22 | the test is a plain prefix test: `/etcetera` is refused as `/etc` |
| `Security.HomePathAccepted` | src/utils/security.ts:17-26 | a path under `/home/` passes |
| `Security.ValidateEnv` | src/utils/security.ts:28-39 | returns exactly the entries whose key is allowlisted, with values unchanged, and never fails |
| `Security.FilterEnvIdempotent` | src/utils/security.ts:28-39 | filtering twice equals filtering once |
| `Security.FilterEnvKeys` | src/config/allowlist.ts:68-73 | only `PATH`, `LANG`, `HOME`, `USER` can survive |
| `Security.FilterEnvLargest` | src/utils/security.ts:31-36 | every allowlisted sub-record of the input is kept |
| `Security.ValidateOutputSize` | src/utils/security.ts:41-45 | fails iff the output is longer than 1048576, with a message naming the length |
| `Security.OutputSizeReported` | src/utils/security.ts:43 | the rejected output's length can be read back from the message |
| `Security.ValidateResourceUsage` | src/utils/security.ts:47-52 | never fails |
| `Cache.GenerateKey` | src/utils/cache.ts:25-27 | the key is the command, a colon, then the arguments joined by colons |
| `Cache.KeyCollisions` | src/utils/cache.ts:25-27 | keys are not escaped: no arguments and one empty argument share a key, and so do a colon in the command and an extra argument |
| `Cache.CommandCache.constructor` | src/utils/cache.ts:14-16 | a new cache is empty |
| `Cache.CommandCache.Set` | src/utils/cache.ts:29-36 | the key's entry becomes (result, now, ttl), with default ttl 60000; nothing else changes |
| `Cache.CommandCache.Get` | src/utils/cache.ts:38-53 | returns the result iff the entry exists and is at most ttl old; a stale entry is deleted; nothing else changes |
| `Cache.CommandCache.Clear` | src/utils/cache.ts:55-57 | the cache becomes empty |
| `Cache.CommandCache.Sweep` | src/utils/cache.ts:61-67 | the cache becomes exactly its entries with `now - timestamp <= ttl` |
| `Cache.SetThenGet` | src/utils/cache.ts:29-53 | after a set at t, a get at now returns the result iff `now - t <= ttl`, and deletes the entry otherwise |
| `Cache.GetDeletesIffExpired` | src/utils/cache.ts:47-50 | for a present key, get returns null iff the entry is stale, and deletes it iff stale |
| `Cache.GetAbsent` | src/utils/cache.ts:42-44 | get on an absent key returns null and leaves the map unchanged |
| `Cache.OtherKeysUntouched` | src/utils/cache.ts:29-53 | get and set never add, remove or change an entry under another key |
| `Cache.SetOverwrites` | src/utils/cache.ts:30-35 | a later set under the same key replaces the earlier entry, stamp and ttl |
| `Cache.SweptEntries` | src/utils/cache.ts:63-67 | the sweep keeps exactly the fresh entries, unchanged |
| `Cache.SweepPreservesLookup` | src/utils/cache.ts:47-67 | a sweep never changes what a get at the same time returns |
| `Cache.SweepsCompose` | src/utils/cache.ts:61-67 | sweeping at t1 and then at t2 >= t1 equals sweeping at t2 |
| `Types.ExitCodeOf` | src/types/index.ts:19-23 | a status carries an exit code iff it is `completed` |
| `Types.TypeTagsDistinct` | src/types/index.ts:19-23 | statuses with the same `type` tag are the same variant |
| `Types.CommandErrorMessageExitCode` | src/types/index.ts:25-33 | the CommandError message is `'Command failed: ' + command + ' (exit code: '`, the code, then `)`, and the code can be read back |
| `Errors.ExecutionMessageExitCode` | src/utils/errors.ts:17-25 | the CommandExecutionError message starts `'Command execution failed (cmd): '` and ends with the exit code |
| `Errors.ExecutionMessageDeterminesExitCode` | src/utils/errors.ts:23 | equal CommandExecutionError messages report equal exit codes |
| `Errors.TimeoutMessageTimeout` | src/utils/errors.ts:27-34 | the CommandTimeoutError message is `'Command execution timeout (cmd): '`, the timeout, then `ms` |
| `Errors.ValidationMessageReason` | src/utils/errors.ts:8-15 | the CommandValidationError message is `'Command validation failed (' + command + '): '` followed by the reason |
| `Errors.ValidationMessageDeterminesReason` | src/utils/errors.ts:13 | for a fixed command, the message determines the reason |
| `Errors.SecurityMessageDetail` | src/utils/errors.ts:36-40 | the SecurityError message is `'Security check failed: '` followed by the detail |
| `Errors.ToolErrorKeepsFields` | src/utils/errors.ts:42-51 | a ToolError keeps code and details, uses the message unchanged, and is named `ToolError` |
| `Executor.StatusChannel.constructor` | src/core/executor.ts:40-44 | a new status stream is open and empty |
| `Executor.StatusChannel.Enqueue` | src/core/executor.ts:63 | appends the event to an open stream; on a closed stream throws and changes nothing |
| `Executor.StatusChannel.Close` | src/core/executor.ts:97 | closes the stream, or throws if it is already closed |
| `Executor.ChildProcess.constructor` | src/core/executor.ts:47-51 | a spawned process records its file, args, cwd and env, with no output and no signals yet |
| `Executor.ChildProcess.OnStdoutData` | src/core/executor.ts:69-71 | a stdout chunk is appended to the collected stdout |
| `Executor.ChildProcess.OnStderrData` | src/core/executor.ts:73-75 | a stderr chunk is appended to the collected stderr |
| `Executor.ChildProcess.Kill` | src/core/executor.ts:144 | the signal is recorded and the output is unchanged |
| `Executor.CreateStreamFromCache` | src/core/executor.ts:116-139 | the replay holds the cached stdout and stderr and a single `completed` event with the cached exit code |
| `Executor.ExitResultAppend` | src/core/executor.ts:66-85 | stdout and stderr are the chunk concatenations in arrival order, and the exit code is `code`, or 0 when null |
| `Executor.CommandExecutor.constructor` | src/core/executor.ts:8-22 | a new executor has no process and no status controller |
| `Executor.CommandExecutor.Execute` | src/core/executor.ts:24-114 | a fresh cache hit replays without spawning or checking; on a miss, a restricted cwd fails before anything is created; a spawn failure enqueues `error`, closes and rethrows; otherwise the process is spawned with the filtered env and `running` is enqueued |
| `Executor.CommandExecutor.OnExit` | src/core/executor.ts:78-98 | oversized stdout fails before caching and leaves cache and stream unchanged; otherwise the result is cached under (command, args), `completed` is enqueued and the stream closed; on an already closed stream the enqueue throws and the stream stays closed |
| `Executor.CommandExecutor.Interrupt` | src/core/executor.ts:141-153 | with no process it changes nothing; otherwise enqueues `interrupted` and sends SIGINT; on a closed stream it throws before signalling and the stream stays closed; collected output is never touched |
| `Executor.DeliverOutput` | src/core/executor.ts:69-75 | delivering chunks in order appends them in order |
| `Executor.RunThenReplay` | src/core/executor.ts:26-97 | a miss then exit leaves exactly `running, completed(code)` on a closed stream; a second execute within the ttl, with any options, replays the cached result |
| `Server.ToolNameOfPrefixed` | src/mcp/server.ts:110 | a key beginning with `shell.` loses exactly that prefix |
| `Server.ToolNameWithoutPrefix` | src/mcp/server.ts:110 | a key with no `shell.` anywhere is its own tool name |
| `Server.ToolNameEmpty` | src/mcp/server.ts:110 | only `''` and `shell.` give an empty tool name |
| `Server.ListingIsFirstEntries` | src/mcp/server.ts:109-134 | the tool list is exactly the first entry for each tool name, in table order |
| `Server.FirstIndicesIncreasing` | src/mcp/server.ts:109 | the kept entries are in increasing table order |
| `Server.FirstIndicesExact` | src/mcp/server.ts:117 | an entry is kept iff no earlier entry has the same tool name |
| `Server.ListingNamesCovered` | src/mcp/server.ts:117-119 | a name is listed iff some table entry produces it |
| `Server.ListingDistinct` | src/mcp/server.ts:117-119 | listed names are pairwise distinct |
| `Server.ListingOrigin` | src/mcp/server.ts:119-132 | every listed tool is a table entry's tool, with that entry's description |
| `Server.ValidateToolNames` | src/mcp/server.ts:87-99 | accepts iff names are distinct; otherwise fails with DUPLICATE_TOOL at the first repeat, with the names seen before it |
| `Server.ProcessTools` | src/mcp/server.ts:101-143 | returns the first-entry-per-name list, whose names are distinct, so its own `validateToolNames` call never fails |
| `Server.CoerceArgs` | src/mcp/server.ts:182-184 | non-array `args` becomes `[]`; array elements are converted by `String`, same length and order |
| `Server.CoerceStringArgs` | src/mcp/server.ts:182-184 | an array of strings arrives unchanged |
| `Server.FullCommand` | src/mcp/server.ts:175 | the result always starts with `shell.`, is the name itself if it did, and `shell.`+name otherwise |
| `Server.FullCommandIdempotent` | src/mcp/server.ts:175 | normalising twice changes nothing |
| `Server.RequestId` | src/mcp/server.ts:187 | the request id is the given id when it is non-empty, and `unknown` otherwise |
| `Server.CallToolIn` | src/mcp/server.ts:168-209 | no name: MISSING_COMMAND; normalised name not a key: COMMAND_NOT_FOUND; validator failure: EXECUTION_FAILED with the context; otherwise execute gets the name, coerced args and the config's timeout, workDir and env |
| `Server.ShippedCallNeverFound` | src/mcp/server.ts:175-179 | with the shipped table, every named call fails with COMMAND_NOT_FOUND |
| `Server.PrefixedNameValidatedTwice` | src/mcp/server.ts:175-198 | a name sent with its `shell.` prefix is found, but the validator prefixes it again and rejects it |
| `Server.ListedToolOrigin` | src/mcp/server.ts:109-134 | every listed tool comes from some table entry |
| `Server.ListedToolsNotCallable` | src/mcp/server.ts:109-179 | with the shipped table, every listed tool is refused by CallTool as not found |
| `Server.PrefixedCommands` | src/config/allowlist.ts:10-56 | the shipped table with each key given one `shell.` prefix |
| `Server.ListedToolsCallable` | src/mcp/server.ts:109-198 | with `shell.`-prefixed keys, every listed tool is found, and a call succeeds iff the validator accepts its coerced arguments; a call without arguments always succeeds |
| `Server.PrefixedCommandsCallable` | src/mcp/server.ts:109-198 | with the shipped table given prefixed keys, every listed tool is callable, with exactly the arguments its shipped entry allows |
| `Server.PrefixedCommandsKeysDistinct` | src/config/allowlist.ts:10-56 | prefixing every shipped key keeps the keys distinct |
| `Server.PrefixedLookup` | src/mcp/server.ts:181 | the prefixed table stores under `shell.`+name the config the shipped table stores under name |

## Findings

| source | as written | input that shows it | evidently intended | confidence | as-written member | corrected member |
|---|---|---|---|---|---|---|
| src/core/validator.ts:6 | `validateCommand` and the CallTool handler (src/mcp/server.ts:175) look up `shell.` + name. The shipped keys (src/config/allowlist.ts:10-56) carry no such prefix. | `validateCommand('ls', [])`, or a CallTool request for the listed tool `ls` | every listed tool can be called | high (not executed) | `Validator.ShippedTableRejectsEveryCommand` | `Server.PrefixedCommandsCallable` |

The validator and the handler take the table as a parameter (`ValidateCommandIn`, `CallToolIn`). So the corrected table `Server.PrefixedCommands` plugs straight into the model.

A second mismatch appears once the keys are prefixed: the handler passes the name as received to the validator, so a name sent with its `shell.` prefix is prefixed twice (`Server.PrefixedNameValidatedTwice`).

## Left out

- Process spawning, stdio pipes, Readable streams and `collectOutput` are OS and stream I/O. The process is an abstract handle fed by `data` and `exit` events.
- Asynchronous `error` events from a spawned process are not modelled. Only a synchronous `spawn` throw is.
- The timeout timer (src/core/executor.ts:53-60, 79) is left out. It throws inside a timer callback, an uncaught asynchronous exception, not a status transition.
- The 5-second SIGTERM follow-up in `interrupt` is left out because it is a timer. So is the `setInterval` in `startCleanup`: `Sweep` is one run of its body, and the `interval` argument is not modelled.
- Executor.CommandExecutor.Interrupt: no idempotence is claimed. The source never clears `process`, so a second call enqueues again, or throws on a closed stream.
- `path.normalize` is Node's library function. It is the parameter `normalize`, and no property of it is assumed.
- `Buffer` decoding: chunks are modelled as already decoded strings. A multi-byte character split across two chunks is not modelled.
- Output length is the number of Dafny characters (Unicode scalar values). JavaScript counts UTF-16 code units, which differ for characters outside the Basic Multilingual Plane.
- Security.ValidateEnv: the result is a map, so the insertion order of the JavaScript object it returns is not modelled.
- Server.CoerceArgs: JSON numbers are integers. Fractional and exponent renderings of `String(number)` are not modelled.
- Server.CallToolIn: the request name is modelled as a string. `String(name)` of a non-string name, and what happens after `execute` (cancel wiring, output collection, a failure of `execute` itself), are not modelled.
- Logging (src/utils/logger.ts), the bootstrap and transport in src/index.ts, the MCP SDK server and its request schemas are not part of this model. The singleton `getInstance` plumbing is replaced by explicitly passed objects.
- Behaviour asserted in src/core/__tests__/validator.test.ts that the code does not have is not modelled. This covers quote-aware tokenising, an empty-command error, stripping `> < " '`, a timeout ceiling, path depth and hidden-file rules, `validateFileSize` and `checkRateLimit`. For example, the code turns `'echo hello; rm -rf /'` into a string with one blank where the test expects two (`Validator.SanitizeSemicolonExample`).
