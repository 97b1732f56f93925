/**
 * The MCP tool server's own logic: deriving the tool list from the
 * allowlist, checking that tool names are unique, and the part of the
 * CallTool handler that turns a request into an execution (name check,
 * `shell.` normalisation, table lookup, argument coercion, validation).
 */
module Server {
  import opened Wrappers
  import opened Text
  import opened Errors
  import opened Types
  import opened Allowlist
  import opened Validator

  /** A listed tool. Its input schema is the same for every tool: an array of strings under `args`. */
  datatype Tool = Tool(name: string, description: string)

  // ---------------------------------------------------------------------------
  // processTools and validateToolNames

  /** `name.replace('shell.', '')`: the first occurrence of `shell.` is removed, wherever it is. */
  function ToolName(key: string): string {
    ReplaceFirst(key, ShellPrefix, "")
  }

  /** A key that begins with `shell.` loses exactly that prefix. */
  lemma ToolNameOfPrefixed(name: string)
    ensures ToolName(ShellPrefix + name) == name
  {
    var key := ShellPrefix + name;
    assert OccursAt(key, ShellPrefix, 0);
    assert IndexOf(key, ShellPrefix) == Some(0);
  }

  /** A key with no `shell.` anywhere in it is its own tool name. */
  lemma ToolNameWithoutPrefix(key: string)
    requires forall j :: 0 <= j <= |key| ==> !OccursAt(key, ShellPrefix, j)
    ensures ToolName(key) == key
  {
  }

  /** Only the empty key and `shell.` itself give the empty tool name. */
  lemma ToolNameEmpty(key: string)
    requires ToolName(key) == ""
    ensures key == "" || key == ShellPrefix
  {
    match IndexOf(key, ShellPrefix)
    case None =>
    case Some(i) =>
      assert OccursAt(key, ShellPrefix, i);
      assert |key| == |ShellPrefix| && i == 0;
  }

  function ToolFor(entry: (string, CommandConfig)): Tool {
    Tool(ToolName(entry.0), entry.1.description)
  }

  function Names(tools: seq<Tool>): (names: seq<string>)
    ensures |names| == |tools| && forall k :: 0 <= k < |tools| ==> names[k] == tools[k].name
  {
    seq(|tools|, k requires 0 <= k < |tools| => tools[k].name)
  }

  lemma NamesAppend(tools: seq<Tool>, t: Tool)
    ensures Names(tools + [t]) == Names(tools) + [t.name]
  {
    assert forall k :: 0 <= k < |tools| ==> (tools + [t])[k] == tools[k];
  }

  predicate NamesDistinct(tools: seq<Tool>) {
    forall a, b :: 0 <= a < b < |tools| ==> tools[a].name != tools[b].name
  }

  /** The tool each table entry would contribute, in table order. */
  function Candidates(table: Table): (cands: seq<Tool>)
    ensures |cands| == |table| && forall i :: 0 <= i < |table| ==> cands[i] == ToolFor(table[i])
  {
    seq(|table|, i requires 0 <= i < |table| => ToolFor(table[i]))
  }

  /** The list after the first `n` candidates: a candidate whose name is already listed is skipped. */
  function Listing(cands: seq<Tool>, n: nat): seq<Tool>
    requires n <= |cands|
  {
    if n == 0 then []
    else
      var prev := Listing(cands, n - 1);
      if cands[n - 1].name in Names(prev) then prev else prev + [cands[n - 1]]
  }

  /** The tool list after the first `n` table entries. */
  function ToolsUpTo(table: Table, n: nat): seq<Tool>
    requires n <= |table|
  {
    Listing(Candidates(table), n)
  }

  /** Candidate `i` is the first with its name. */
  predicate IsFirst(cands: seq<Tool>, i: nat)
    requires i < |cands|
  {
    forall j :: 0 <= j < i ==> cands[j].name != cands[i].name
  }

  /** The indices below `n` of candidates that are the first with their name, in increasing order. */
  function FirstIndices(cands: seq<Tool>, n: nat): (idx: seq<int>)
    requires n <= |cands|
    ensures forall k :: 0 <= k < |idx| ==> 0 <= idx[k] < n
  {
    if n == 0 then []
    else FirstIndices(cands, n - 1) + (if IsFirst(cands, n - 1) then [n - 1] else [])
  }

  /** The indices are strictly increasing, so the list keeps table order. */
  lemma {:induction false} FirstIndicesIncreasing(cands: seq<Tool>, n: nat)
    requires n <= |cands|
    ensures forall a, b :: 0 <= a < b < |FirstIndices(cands, n)| ==> FirstIndices(cands, n)[a] < FirstIndices(cands, n)[b]
  {
    if n > 0 {
      FirstIndicesIncreasing(cands, n - 1);
      var prev := FirstIndices(cands, n - 1);
      var idx := FirstIndices(cands, n);
      if IsFirst(cands, n - 1) {
        assert idx == prev + [n - 1];
        forall a, b | 0 <= a < b < |idx| ensures idx[a] < idx[b] {
          if b == |prev| {
            assert idx[a] == prev[a] && idx[b] == n - 1;
          } else {
            assert idx[a] == prev[a] && idx[b] == prev[b] && prev[a] < prev[b];
          }
        }
      } else {
        assert idx == prev;
      }
    }
  }

  /** The indices collected are exactly the candidates below `n` that are first with their name. */
  lemma {:induction false} FirstIndicesExact(cands: seq<Tool>, n: nat)
    requires n <= |cands|
    ensures forall i :: i in FirstIndices(cands, n) <==> 0 <= i < n && IsFirst(cands, i)
  {
    if n > 0 {
      FirstIndicesExact(cands, n - 1);
    }
  }

  /** A name is listed after `n` candidates exactly when one of them has that name. */
  lemma {:induction false} ListingNamesCovered(cands: seq<Tool>, n: nat)
    requires n <= |cands|
    ensures forall x :: x in Names(Listing(cands, n)) <==> exists i :: 0 <= i < n && cands[i].name == x
  {
    if n > 0 {
      ListingNamesCovered(cands, n - 1);
      var prev := Listing(cands, n - 1);
      if cands[n - 1].name !in Names(prev) {
        NamesAppend(prev, cands[n - 1]);
      }
    }
  }

  /** No name is listed twice. */
  lemma {:induction false} ListingDistinct(cands: seq<Tool>, n: nat)
    requires n <= |cands|
    ensures NamesDistinct(Listing(cands, n))
  {
    if n > 0 {
      ListingDistinct(cands, n - 1);
      var prev := Listing(cands, n - 1);
      var tool := cands[n - 1];
      if tool.name !in Names(prev) {
        forall a, b | 0 <= a < b < |prev| + 1 ensures (prev + [tool])[a].name != (prev + [tool])[b].name {
          if b == |prev| {
            assert Names(prev)[a] == prev[a].name;
          }
        }
      }
    }
  }

  /** Every listed tool is one of the first `n` candidates. */
  lemma {:induction false} ListingOrigin(cands: seq<Tool>, n: nat, t: Tool) returns (i: int)
    requires n <= |cands| && t in Listing(cands, n)
    ensures 0 <= i < n && t == cands[i]
  {
    assert n > 0;
    if t in Listing(cands, n - 1) {
      i := ListingOrigin(cands, n - 1, t);
    } else {
      i := n - 1;
    }
  }

  /** The candidates at `idx`, in that order. */
  function Pick(cands: seq<Tool>, idx: seq<int>): (tools: seq<Tool>)
    requires forall k :: 0 <= k < |idx| ==> 0 <= idx[k] < |cands|
    ensures |tools| == |idx|
  {
    if |idx| == 0 then [] else Pick(cands, idx[..|idx| - 1]) + [cands[idx[|idx| - 1]]]
  }

  /** The `k`-th picked tool is candidate `idx[k]`. */
  lemma {:induction false} PickIndex(cands: seq<Tool>, idx: seq<int>, k: int)
    requires forall j :: 0 <= j < |idx| ==> 0 <= idx[j] < |cands|
    requires 0 <= k < |idx|
    ensures Pick(cands, idx)[k] == cands[idx[k]]
    decreases |idx|
  {
    if k < |idx| - 1 {
      PickIndex(cands, idx[..|idx| - 1], k);
    }
  }

  lemma PickAppend(cands: seq<Tool>, idx: seq<int>, i: int)
    requires forall k :: 0 <= k < |idx| ==> 0 <= idx[k] < |cands|
    requires 0 <= i < |cands|
    ensures Pick(cands, idx + [i]) == Pick(cands, idx) + [cands[i]]
  {
    assert (idx + [i])[..|idx|] == idx;
  }

  /** One more candidate is appended exactly when it is the first with its name. */
  lemma ListingStep(cands: seq<Tool>, n: nat)
    requires 0 < n <= |cands|
    ensures Listing(cands, n) == if IsFirst(cands, n - 1) then Listing(cands, n - 1) + [cands[n - 1]] else Listing(cands, n - 1)
  {
    ListingNamesCovered(cands, n - 1);
  }

  /**
   * The list is exactly the first candidate for each name, in candidate
   * order: nothing is reordered, and a later duplicate never replaces an
   * earlier one.
   */
  lemma {:induction false} ListingIsFirstEntries(cands: seq<Tool>, n: nat)
    requires n <= |cands|
    ensures Listing(cands, n) == Pick(cands, FirstIndices(cands, n))
  {
    if n > 0 {
      ListingIsFirstEntries(cands, n - 1);
      ListingStep(cands, n);
      var prev := FirstIndices(cands, n - 1);
      if IsFirst(cands, n - 1) {
        PickAppend(cands, prev, n - 1);
        calc {
          Listing(cands, n);
          Listing(cands, n - 1) + [cands[n - 1]];
          Pick(cands, prev) + [cands[n - 1]];
          Pick(cands, prev + [n - 1]);
          Pick(cands, FirstIndices(cands, n));
        }
      } else {
        assert FirstIndices(cands, n) == prev;
      }
    }
  }

  /** The DUPLICATE_TOOL error, naming the repeated tool and the names seen before it. */
  function DuplicateToolError(name: string, seen: seq<string>): Error {
    ToolError("DUPLICATE_TOOL", "Tool names must be unique", DuplicateTool(name, seen))
  }

  /**
   * `validateToolNames`: accepts a list of distinct names; otherwise fails at
   * the first repeated name, with the names seen so far in insertion order.
   */
  method ValidateToolNames(tools: seq<Tool>) returns (r: Outcome<Error>)
    ensures r.Pass? <==> NamesDistinct(tools)
    ensures r.Fail? ==> exists i :: 0 <= i < |tools| && NamesDistinct(tools[..i]) && tools[i].name in Names(tools[..i])
                                    && r.error == DuplicateToolError(tools[i].name, Names(tools[..i]))
  {
    var names: seq<string> := [];
    var i := 0;
    while i < |tools|
      invariant 0 <= i <= |tools|
      invariant NamesDistinct(tools[..i])
      invariant names == Names(tools[..i])
    {
      if tools[i].name in names {
        var j :| 0 <= j < |names| && names[j] == tools[i].name;
        assert tools[j].name == tools[i].name;
        return Fail(DuplicateToolError(tools[i].name, names));
      }
      assert tools[..i + 1] == tools[..i] + [tools[i]];
      names := names + [tools[i].name];
      i := i + 1;
    }
    assert tools[..|tools|] == tools;
    return Pass;
  }

  /**
   * `processTools`: walks the table in order, keeping the first entry for
   * each tool name, then runs `validateToolNames` on the result, which never
   * fails here.
   */
  method ProcessTools(table: Table) returns (tools: seq<Tool>)
    ensures tools == ToolsUpTo(table, |table|)
    ensures NamesDistinct(tools)
  {
    tools := [];
    var processedNames: set<string> := {};
    var i := 0;
    while i < |table|
      invariant 0 <= i <= |table|
      invariant tools == Listing(Candidates(table), i)
      invariant forall x :: x in processedNames <==> x in Names(tools)
    {
      var (name, config) := table[i];
      var toolName := ToolName(name);
      assert Candidates(table)[i] == Tool(toolName, config.description);
      if toolName !in processedNames {
        NamesAppend(tools, Tool(toolName, config.description));
        processedNames := processedNames + {toolName};
        tools := tools + [Tool(toolName, config.description)];
      }
      i := i + 1;
    }
    ListingDistinct(Candidates(table), |table|);
    assert NamesDistinct(tools);
    var check := ValidateToolNames(tools);
    assert check.Pass?;
  }

  // ---------------------------------------------------------------------------
  // The CallTool handler, up to the call of `execute`

  /** A JSON value as it arrives in a request. Numbers are integers here. */
  datatype JsonValue =
    | JString(str: string)
    | JNumber(num: int)
    | JBool(truth: bool)
    | JNull
    | JArray(items: seq<JsonValue>)
    | JObject(fields: map<string, JsonValue>)

  /** JavaScript's `String(v)`; an array joins its elements with commas, a null element as the empty string. */
  function String(v: JsonValue): string
    decreases v
  {
    match v
    case JString(s) => s
    case JNumber(n) => IntToString(n)
    case JBool(b) => if b then "true" else "false"
    case JNull => "null"
    case JArray(items) =>
      Join(seq(|items|, i requires 0 <= i < |items| => if items[i].JNull? then "" else String(items[i])), ",")
    case JObject(_) => "[object Object]"
  }

  /** `Array.isArray(arguments?.args) ? arguments.args.map(String) : []` */
  function CoerceArgs(arguments: Option<map<string, JsonValue>>): (args: seq<string>)
    ensures !(arguments.Some? && "args" in arguments.value && arguments.value["args"].JArray?) ==> args == []
    ensures arguments.Some? && "args" in arguments.value && arguments.value["args"].JArray? ==>
              var items := arguments.value["args"].items;
              |args| == |items| && forall i :: 0 <= i < |items| ==> args[i] == String(items[i])
  {
    if arguments.Some? && "args" in arguments.value && arguments.value["args"].JArray? then
      var items := arguments.value["args"].items;
      seq(|items|, i requires 0 <= i < |items| => String(items[i]))
    else []
  }

  /** An array of strings arrives unchanged. */
  lemma CoerceStringArgs(arguments: map<string, JsonValue>, strs: seq<string>)
    requires "args" in arguments && arguments["args"] == JArray(seq(|strs|, i requires 0 <= i < |strs| => JString(strs[i])))
    ensures CoerceArgs(Some(arguments)) == strs
  {
  }

  /** `command.startsWith('shell.') ? command : 'shell.' + command` */
  function FullCommand(command: string): (full: string)
    ensures StartsWith(full, ShellPrefix)
    ensures StartsWith(command, ShellPrefix) ==> full == command
    ensures !StartsWith(command, ShellPrefix) ==> full == ShellPrefix + command
  {
    if StartsWith(command, ShellPrefix) then command
    else
      assert (ShellPrefix + command)[..|ShellPrefix|] == ShellPrefix;
      ShellPrefix + command
  }

  /** Normalising a name twice changes nothing. */
  lemma FullCommandIdempotent(command: string)
    ensures FullCommand(FullCommand(command)) == FullCommand(command)
  {
  }

  /** `ext.id || 'unknown'` */
  function RequestId(id: Option<string>): (r: string)
    ensures r != ""
    ensures id.Some? && id.value != "" ==> r == id.value
    ensures !(id.Some? && id.value != "") ==> r == "unknown"
  {
    if id.Some? && id.value != "" then id.value else "unknown"
  }

  /** What the handler hands to `execute`, with the context it logs. */
  datatype Invocation = Invocation(command: string, args: seq<string>, options: CommandOptions, context: CommandContext)

  /** The EXECUTION_FAILED error the handler's catch block throws in place of `error`. */
  function ExecutionFailed(error: Error, context: CommandContext): Error {
    ToolError("EXECUTION_FAILED", "Command execution failed: " + error.Message(), Context(context))
  }

  /**
   * The CallTool handler against `table`, up to the call of `execute`. The
   * validator is given the name as received, not the normalised one.
   */
  function CallToolIn(table: Table, name: string, arguments: Option<map<string, JsonValue>>, id: Option<string>)
    : (r: Result<Invocation, Error>)
    ensures name == "" <==> r == Failure(ToolError("MISSING_COMMAND", "Command name is required", NoDetails))
    ensures name != "" ==>
              (!HasKey(table, FullCommand(name)) <==> r == Failure(ToolError("COMMAND_NOT_FOUND", "Command not found", CommandNotFound(name))))
    ensures name != "" && HasKey(table, FullCommand(name)) ==>
              var config := Lookup(table, FullCommand(name)).value;
              var args := CoerceArgs(arguments);
              var context := CommandContext(RequestId(id), name, args, config.timeout, config.workDir, config.env);
              match ValidateCommandIn(table, name, args)
              case Failure(e) => r == Failure(ExecutionFailed(e, context))
              case Success(_) => r == Success(Invocation(name, args, CommandOptions(config.timeout, config.workDir, config.env), context))
  {
    if name == "" then
      Failure(ToolError("MISSING_COMMAND", "Command name is required", NoDetails))
    else
      match Lookup(table, FullCommand(name))
      case None => Failure(ToolError("COMMAND_NOT_FOUND", "Command not found", CommandNotFound(name)))
      case Some(config) =>
        var args := CoerceArgs(arguments);
        var context := CommandContext(RequestId(id), name, args, config.timeout, config.workDir, config.env);
        match ValidateCommandIn(table, name, args)
        case Failure(e) => Failure(ExecutionFailed(e, context))
        case Success(_) => Success(Invocation(name, args, CommandOptions(config.timeout, config.workDir, config.env), context))
  }

  /** The handler with the shipped table. */
  function CallTool(name: string, arguments: Option<map<string, JsonValue>>, id: Option<string>): Result<Invocation, Error> {
    CallToolIn(AllowedCommands, name, arguments, id)
  }

  /**
   * With the shipped table no call reaches the validator: a non-empty name is
   * always normalised to a `shell.` key, and there is none.
   */
  lemma ShippedCallNeverFound(name: string, arguments: Option<map<string, JsonValue>>, id: Option<string>)
    requires name != ""
    ensures CallTool(name, arguments, id) == Failure(ToolError("COMMAND_NOT_FOUND", "Command not found", CommandNotFound(name)))
  {
    NoKeyHasShellPrefix();
    assert StartsWith(FullCommand(name), ShellPrefix);
  }

  /**
   * A name sent with its `shell.` prefix is found in a table keyed that way,
   * but the validator prefixes it again and, unless the table also holds the
   * doubly prefixed key, rejects it.
   */
  lemma PrefixedNameValidatedTwice(table: Table, name: string, arguments: Option<map<string, JsonValue>>, id: Option<string>)
    requires StartsWith(name, ShellPrefix) && HasKey(table, name)
    requires !HasKey(table, ShellPrefix + name)
    ensures CallToolIn(table, name, arguments, id).Failure?
    ensures CallToolIn(table, name, arguments, id).error.code == "EXECUTION_FAILED"
    ensures CallToolIn(table, name, arguments, id).error.message == "Command execution failed: " + CommandNotAllowed
  {
  }

  // ---------------------------------------------------------------------------
  // Listed tools against callable tools

  /** Every listed tool is the tool of some table entry, with that entry's description. */
  lemma {:induction false} ListedToolOrigin(table: Table, t: Tool) returns (i: int)
    requires t in ToolsUpTo(table, |table|)
    ensures 0 <= i < |table| && t == ToolFor(table[i])
  {
    i := ListingOrigin(Candidates(table), |table|, t);
  }

  /** Every tool the shipped table lists is refused by the CallTool handler as not found. */
  lemma ListedToolsNotCallable(t: Tool, arguments: Option<map<string, JsonValue>>, id: Option<string>)
    requires t in ToolsUpTo(AllowedCommands, |AllowedCommands|)
    ensures CallTool(t.name, arguments, id) == Failure(ToolError("COMMAND_NOT_FOUND", "Command not found", CommandNotFound(t.name)))
  {
    var i := ListedToolOrigin(AllowedCommands, t);
    if t.name == "" {
      ToolNameEmpty(AllowedCommands[i].0);
      assert false;
    }
    ShippedCallNeverFound(t.name, arguments, id);
  }

  /** Keys carrying the `shell.` prefix exactly once, which is what the handler and the validator look up. */
  predicate PrefixedKeys(table: Table) {
    forall i :: 0 <= i < |table| ==>
      StartsWith(table[i].0, ShellPrefix) && !StartsWith(table[i].0[|ShellPrefix|..], ShellPrefix)
  }

  /** The shipped table with every key given the `shell.` prefix. */
  function PrefixedCommands(): (table: Table)
    ensures PrefixedKeys(table)
    ensures |table| == |AllowedCommands|
    ensures forall i :: 0 <= i < |table| ==> table[i] == (ShellPrefix + AllowedCommands[i].0, AllowedCommands[i].1)
  {
    NoKeyHasShellPrefix();
    var table := seq(|AllowedCommands|, i requires 0 <= i < |AllowedCommands| => (ShellPrefix + AllowedCommands[i].0, AllowedCommands[i].1));
    assert forall i :: 0 <= i < |table| ==> table[i].0[|ShellPrefix|..] == AllowedCommands[i].0;
    table
  }

  /**
   * With prefixed keys, every listed tool is found by the handler, and the
   * call goes through exactly when the validator accepts its arguments; in
   * particular a call without arguments always goes through.
   */
  lemma {:induction false} ListedToolsCallable(table: Table, t: Tool, arguments: Option<map<string, JsonValue>>, id: Option<string>)
    requires PrefixedKeys(table)
    requires t in ToolsUpTo(table, |table|)
    requires t.name != ""
    ensures FullCommand(t.name) == ShellPrefix + t.name && HasKey(table, ShellPrefix + t.name)
    ensures CallToolIn(table, t.name, arguments, id).Success? <==>
              ArgsAccepted(Lookup(table, ShellPrefix + t.name).value, CoerceArgs(arguments))
    ensures CallToolIn(table, t.name, None, id).Success?
  {
    var i := ListedToolOrigin(table, t);
    var key := table[i].0;
    var rest := key[|ShellPrefix|..];
    assert key == ShellPrefix + rest;
    ToolNameOfPrefixed(rest);
    assert t.name == rest;
    assert FullCommand(t.name) == key;
    assert HasKey(table, ShellPrefix + t.name);
    assert CoerceArgs(None) == [];
  }

  /** Giving every key the same prefix keeps the keys distinct. */
  lemma PrefixedCommandsKeysDistinct()
    ensures KeysDistinct(PrefixedCommands())
  {
    var table := PrefixedCommands();
    EntriesNamedByKey();
    forall a, b | 0 <= a < b < |table| ensures table[a].0 != table[b].0 {
      assert table[a].0[|ShellPrefix|..] == AllowedCommands[a].0;
      assert table[b].0[|ShellPrefix|..] == AllowedCommands[b].0;
    }
  }

  /** The prefixed table stores under `shell.` + name what the shipped table stores under name. */
  lemma PrefixedLookup(i: int)
    requires 0 <= i < |AllowedCommands|
    ensures Lookup(PrefixedCommands(), ShellPrefix + AllowedCommands[i].0) == Some(AllowedCommands[i].1)
    ensures Lookup(AllowedCommands, AllowedCommands[i].0) == Some(AllowedCommands[i].1)
  {
    EntriesNamedByKey();
    PrefixedCommandsKeysDistinct();
    assert PrefixedCommands()[i] == (ShellPrefix + AllowedCommands[i].0, AllowedCommands[i].1);
  }

  /**
   * With the shipped table given prefixed keys, every listed tool is callable,
   * with exactly the arguments its shipped entry allows.
   */
  lemma {:induction false} PrefixedCommandsCallable(t: Tool, arguments: Option<map<string, JsonValue>>, id: Option<string>)
    requires t in ToolsUpTo(PrefixedCommands(), |PrefixedCommands()|)
    ensures HasKey(AllowedCommands, t.name)
    ensures CallToolIn(PrefixedCommands(), t.name, arguments, id).Success? <==>
              ArgsAccepted(Lookup(AllowedCommands, t.name).value, CoerceArgs(arguments))
    ensures CallToolIn(PrefixedCommands(), t.name, None, id).Success?
  {
    var table := PrefixedCommands();
    var i := ListedToolOrigin(table, t);
    var name := AllowedCommands[i].0;
    EntriesNamedByKey();
    assert name != "";
    ToolNameOfPrefixed(name);
    assert t.name == name;
    PrefixedLookup(i);
    ListedToolsCallable(table, t, arguments, id);
  }
}
