/**
 * The security checker: the restricted-path check on a working directory,
 * the environment allowlist, the output-size limit and the (empty)
 * resource-usage check. `path.normalize` is a parameter, since its
 * behaviour belongs to the platform.
 */
module Security {
  import opened Wrappers
  import opened Text
  import opened Errors
  import opened Allowlist

  const RestrictedPathMessage := "不允許存取路徑: "
  const OutputTooLargeMessage := "輸出超過大小限制: "

  /** The index of the first restricted path that `p` starts with, in configuration order. */
  function FirstRestricted(restricted: seq<string>, p: string): (r: Option<int>)
    ensures r.Some? ==> 0 <= r.value < |restricted| && StartsWith(p, restricted[r.value])
    ensures r.Some? ==> forall j :: 0 <= j < r.value ==> !StartsWith(p, restricted[j])
    ensures r.None? <==> forall j :: 0 <= j < |restricted| ==> !StartsWith(p, restricted[j])
  {
    FirstRestrictedFrom(restricted, p, 0)
  }

  function FirstRestrictedFrom(restricted: seq<string>, p: string, i: nat): (r: Option<int>)
    requires i <= |restricted|
    requires forall j :: 0 <= j < i ==> !StartsWith(p, restricted[j])
    ensures r.Some? ==> i <= r.value < |restricted| && StartsWith(p, restricted[r.value])
    ensures r.Some? ==> forall j :: 0 <= j < r.value ==> !StartsWith(p, restricted[j])
    ensures r.None? <==> forall j :: 0 <= j < |restricted| ==> !StartsWith(p, restricted[j])
    decreases |restricted| - i
  {
    if i == |restricted| then None
    else if StartsWith(p, restricted[i]) then Some(i)
    else FirstRestrictedFrom(restricted, p, i + 1)
  }

  /** What `validatePath` decides: the SecurityError for the first restricted prefix, if any. */
  function PathVerdict(normalize: string -> string, path: string): Outcome<Error> {
    match FirstRestricted(Settings.restrictedPaths, normalize(path))
    case None => Pass
    case Some(i) => Fail(Security(RestrictedPathMessage + Settings.restrictedPaths[i]))
  }

  /**
   * `validatePath`: walks the restricted paths in order and fails on the
   * first one that the normalised path starts with.
   */
  method ValidatePath(normalize: string -> string, path: string) returns (r: Outcome<Error>)
    ensures r.Fail? <==> exists j :: 0 <= j < |Settings.restrictedPaths| && StartsWith(normalize(path), Settings.restrictedPaths[j])
    ensures r.Fail? ==> exists j :: 0 <= j < |Settings.restrictedPaths|
                          && StartsWith(normalize(path), Settings.restrictedPaths[j])
                          && (forall k :: 0 <= k < j ==> !StartsWith(normalize(path), Settings.restrictedPaths[k]))
                          && r.error == Security(RestrictedPathMessage + Settings.restrictedPaths[j])
    ensures r == PathVerdict(normalize, path)
  {
    var normalized := normalize(path);
    var restricted := Settings.restrictedPaths;
    var i := 0;
    while i < |restricted|
      invariant 0 <= i <= |restricted|
      invariant forall k :: 0 <= k < i ==> !StartsWith(normalized, restricted[k])
    {
      if StartsWith(normalized, restricted[i]) {
        assert FirstRestricted(restricted, normalized) == Some(i);
        return Fail(Security(RestrictedPathMessage + restricted[i]));
      }
      i := i + 1;
    }
    return Pass;
  }

  /** The check is a plain prefix test: "/etcetera" is refused as if it were under "/etc". */
  lemma PrefixNotDirectory(normalize: string -> string, path: string)
    requires normalize(path) == "/etcetera"
    ensures PathVerdict(normalize, path) == Fail(Security(RestrictedPathMessage + "/etc"))
  {
    assert StartsWith(normalize(path), Settings.restrictedPaths[0]);
  }

  /** A path under none of the restricted roots passes, e.g. one under "/home". */
  lemma HomePathAccepted(normalize: string -> string, path: string)
    requires StartsWith(normalize(path), "/home/")
    ensures PathVerdict(normalize, path) == Pass
  {
    var p := normalize(path);
    assert p[0] == '/' && p[1] == 'h';
    forall j | 0 <= j < |Settings.restrictedPaths| ensures !StartsWith(p, Settings.restrictedPaths[j]) {
      var q := Settings.restrictedPaths[j];
      assert q[1] != 'h';
      assert |q| > 1;
    }
  }

  predicate AllowedEnvVar(key: string) {
    key in Settings.allowedEnvVars
  }

  /** The environment with every variable outside the allowlist dropped. */
  function FilterEnv(env: map<string, string>): map<string, string> {
    map k | k in env && AllowedEnvVar(k) :: env[k]
  }

  /** `validateEnv`: copies the allowlisted variables, one key at a time, into a new record. */
  method ValidateEnv(env: map<string, string>) returns (sanitized: map<string, string>)
    ensures forall k :: k in sanitized <==> k in env && AllowedEnvVar(k)
    ensures forall k :: k in sanitized ==> sanitized[k] == env[k]
    ensures sanitized == FilterEnv(env)
  {
    sanitized := map[];
    var keys := env.Keys;
    while keys != {}
      invariant keys <= env.Keys
      invariant sanitized == map k | k in env && k !in keys && AllowedEnvVar(k) :: env[k]
      decreases keys
    {
      var key :| key in keys;
      if AllowedEnvVar(key) {
        sanitized := sanitized[key := env[key]];
      }
      keys := keys - {key};
    }
  }

  /** Filtering is idempotent: a sanitised environment is left as it is. */
  lemma FilterEnvIdempotent(env: map<string, string>)
    ensures FilterEnv(FilterEnv(env)) == FilterEnv(env)
  {
  }

  /** At most the four allowlisted names survive. */
  lemma FilterEnvKeys(env: map<string, string>)
    ensures FilterEnv(env).Keys <= {"PATH", "LANG", "HOME", "USER"}
  {
  }

  /**
   * The filtered environment is the largest part of `env` that uses only
   * allowlisted names: any such sub-record is contained in it.
   */
  lemma FilterEnvLargest(env: map<string, string>, sub: map<string, string>)
    requires forall k :: k in sub ==> k in env && sub[k] == env[k] && AllowedEnvVar(k)
    ensures forall k :: k in sub ==> k in FilterEnv(env) && FilterEnv(env)[k] == sub[k]
  {
  }

  /** `validateOutputSize`: the output may be at most `maxOutputSize` characters long. */
  function ValidateOutputSize(output: string): (r: Outcome<Error>)
    ensures r.Fail? <==> |output| > Settings.maxOutputSize
    ensures r.Fail? ==> r.error == Security(OutputTooLargeMessage + IntToString(|output|) + " bytes")
  {
    if |output| > Settings.maxOutputSize then
      Fail(Security(OutputTooLargeMessage + IntToString(|output|) + " bytes"))
    else
      Pass
  }

  /** The rejection of an oversized output reports its length, read back from the message. */
  lemma OutputSizeReported(output: string)
    requires |output| > Settings.maxOutputSize
    ensures var m := ValidateOutputSize(output).error.detail;
            StartsWith(m, OutputTooLargeMessage) && EndsWith(m, " bytes")
            && TrailingInt(m[..|m| - 6]) == |output|
  {
    var p := OutputTooLargeMessage;
    assert p[|p| - 1] == ' ';
    TrailingIntBeforeSuffix(p, |output|, " bytes");
  }

  /** `validateResourceUsage` has no checks yet and accepts every command. */
  function ValidateResourceUsage(command: string): (r: Outcome<Error>)
    ensures r == Pass
  {
    Pass
  }
}
