/**
 * The static allowlist and security constants. `allowedCommands` is a plain
 * object literal; it is modelled as its entries in insertion order, which is
 * the order `Object.entries` yields and the tool list follows.
 */
module Allowlist {
  import opened Wrappers
  import opened Text

  /** One allowlist entry; `allowedArgs`, `timeout`, `workDir` and `env` are optional. */
  datatype CommandConfig = CommandConfig(
    command: string,
    description: string,
    allowedArgs: Option<seq<string>>,
    timeout: Option<int>,
    workDir: Option<string>,
    env: Option<map<string, string>>)

  /** The entries of a `Record<string, CommandConfig>`, in insertion order. */
  type Table = seq<(string, CommandConfig)>

  predicate HasKey(table: Table, key: string) {
    exists i :: 0 <= i < |table| && table[i].0 == key
  }

  /** Object keys are unique. */
  predicate KeysDistinct(table: Table) {
    forall i, j :: 0 <= i < j < |table| ==> table[i].0 != table[j].0
  }

  /** `table[key]`: the entry stored under `key`, or None when the key is absent. */
  function Lookup(table: Table, key: string): (r: Option<CommandConfig>)
    ensures r.Some? <==> HasKey(table, key)
    ensures r.Some? ==> exists i :: 0 <= i < |table| && table[i] == (key, r.value)
    ensures KeysDistinct(table) ==> forall i :: 0 <= i < |table| && table[i].0 == key ==> r == Some(table[i].1)
  {
    if |table| == 0 then None
    else if table[0].0 == key then Some(table[0].1)
    else
      var r := Lookup(table[1..], key);
      assert HasKey(table[1..], key) ==> HasKey(table, key) by {
        if HasKey(table[1..], key) {
          var i :| 0 <= i < |table[1..]| && table[1..][i].0 == key;
          assert table[i + 1].0 == key;
        }
      }
      assert HasKey(table, key) ==> HasKey(table[1..], key) by {
        if HasKey(table, key) {
          var i :| 0 <= i < |table| && table[i].0 == key;
          assert i > 0 && table[1..][i - 1].0 == key;
        }
      }
      assert r.Some? ==> exists i :: 0 <= i < |table| && table[i] == (key, r.value) by {
        if r.Some? {
          var i :| 0 <= i < |table[1..]| && table[1..][i] == (key, r.value);
          assert table[i + 1] == (key, r.value);
        }
      }
      assert KeysDistinct(table) ==> KeysDistinct(table[1..]) by {
        if KeysDistinct(table) {
          forall i, j | 0 <= i < j < |table[1..]| ensures table[1..][i].0 != table[1..][j].0 {
            assert table[1..][i] == table[i + 1] && table[1..][j] == table[j + 1];
          }
        }
      }
      assert KeysDistinct(table) ==> forall i :: 0 <= i < |table| && table[i].0 == key ==> r == Some(table[i].1) by {
        if KeysDistinct(table) {
          forall i | 0 <= i < |table| && table[i].0 == key ensures r == Some(table[i].1) {
            assert i > 0 && table[1..][i - 1] == table[i];
          }
        }
      }
      r
  }

  const AllowedCommands: Table := [
    ("ls", CommandConfig("ls", "列出目錄內容", Some(["-l", "-a", "-h", "--help", "-R"]), Some(5000), None, None)),
    ("pwd", CommandConfig("pwd", "顯示當前工作目錄", None, Some(1000), None, None)),
    ("echo", CommandConfig("echo", "顯示文字", None, Some(1000), None, None)),
    ("ps", CommandConfig("ps", "顯示進程狀態", Some(["-e", "-f", "-u", "--help"]), Some(5000), None, None)),
    ("df", CommandConfig("df", "顯示磁碟使用情況", Some(["-h", "--help"]), Some(5000), None, None)),
    ("free", CommandConfig("free", "顯示記憶體使用情況", Some(["-h", "-m", "-g", "--help"]), Some(5000), None, None)),
    ("uptime", CommandConfig("uptime", "顯示系統運行時間", None, Some(1000), None, None)),
    ("date", CommandConfig("date", "顯示系統日期和時間", Some(["+%Y-%m-%d", "+%H:%M:%S", "--help"]), Some(1000), None, None))
  ]

  /** `securityConfig` */
  datatype SecurityConfig = SecurityConfig(
    maxOutputSize: nat,
    defaultTimeout: nat,
    restrictedPaths: seq<string>,
    allowedEnvVars: seq<string>)

  const Settings := SecurityConfig(
    1024 * 1024,
    5000,
    ["/etc", "/usr", "/var", "/root"],
    ["PATH", "LANG", "HOME", "USER"])

  const ShellPrefix := "shell."

  /** Every entry's `command` field equals its key, and the keys are distinct and non-empty. */
  lemma EntriesNamedByKey()
    ensures KeysDistinct(AllowedCommands)
    ensures forall i :: 0 <= i < |AllowedCommands| ==> AllowedCommands[i].0 != ""
    ensures forall i :: 0 <= i < |AllowedCommands| ==> AllowedCommands[i].1.command == AllowedCommands[i].0
  {
  }

  /** No key of the shipped table carries the `shell.` prefix that every lookup adds. */
  lemma NoKeyHasShellPrefix()
    ensures forall i :: 0 <= i < |AllowedCommands| ==> !StartsWith(AllowedCommands[i].0, ShellPrefix)
  {
    forall i | 0 <= i < |AllowedCommands| ensures !StartsWith(AllowedCommands[i].0, ShellPrefix) {
      var k := AllowedCommands[i].0;
      assert |k| < |ShellPrefix| || k[0] != ShellPrefix[0];
    }
  }

  /** Exactly `pwd`, `echo` and `uptime` have no `allowedArgs`. */
  lemma ArgFreeEntries()
    ensures forall i :: 0 <= i < |AllowedCommands| ==>
              (AllowedCommands[i].1.allowedArgs.None? <==> AllowedCommands[i].0 in ["pwd", "echo", "uptime"])
  {
  }

  /** Every entry has a timeout, and none exceeds `securityConfig.defaultTimeout`. */
  lemma TimeoutsWithinDefault()
    ensures forall i :: 0 <= i < |AllowedCommands| ==>
              AllowedCommands[i].1.timeout.Some? && AllowedCommands[i].1.timeout.value <= Settings.defaultTimeout
  {
  }

  /** No entry sets a working directory or an environment. */
  lemma NoWorkDirOrEnv()
    ensures forall i :: 0 <= i < |AllowedCommands| ==>
              AllowedCommands[i].1.workDir.None? && AllowedCommands[i].1.env.None?
  {
  }
}
