/**
 * The registration commands the CLI runs for the two command-line platforms
 * (`setup_claude_code` and `setup_gemini_cli` in src/jamfmcp/cli.py): the argument
 * vector is built from the JamfMCP entry of a generated configuration. Running the
 * process is not modelled; the vector is the result.
 */
module CliCommands {
  import opened Wrappers
  import opened JsonValue
  import opened CliConfig

  /** `-e KEY=VALUE` for every environment variable, in the dict's order. */
  function EnvFlags(env: seq<(string, string)>): (flags: seq<string>)
    ensures |flags| == 2 * |env|
  {
    if env == [] then []
    else
      var (key, value) := env[|env| - 1];
      EnvFlags(env[..|env| - 1]) + ["-e", key + "=" + value]
  }

  /** The registration command of Claude Code for one server entry. */
  function ClaudeArgv(e: ServerEntry): seq<string>
  {
    ["claude", "mcp", "add", ServerName] + EnvFlags(e.env) + [e.command] + e.args
  }

  /** The registration command of Gemini CLI: as for Claude, but the launcher follows `--`. */
  function GeminiArgv(e: ServerEntry): seq<string>
  {
    ["gemini", "mcp", "add", ServerName] + EnvFlags(e.env) + ["--", e.command] + e.args
  }

  /** `config["mcpServers"][SERVER_NAME]`, raising KeyError when JamfMCP has no entry. */
  function JamfServer(config: McpConfig): (r: Result<ServerEntry, PyError>)
    ensures r.Err? <==> LookupServer(config, ServerName).None?
    ensures r.Err? ==> r.error == KeyError(ServerName)
    ensures r.Ok? ==> Some(r.value) == LookupServer(config, ServerName)
  {
    match LookupServer(config, ServerName)
    case None => Err(KeyError(ServerName))
    case Some(e) => Ok(e)
  }

  function ClaudeCommand(config: McpConfig): Result<seq<string>, PyError>
  {
    match JamfServer(config)
    case Err(err) => Err(err)
    case Ok(e) => Ok(ClaudeArgv(e))
  }

  function GeminiCommand(config: McpConfig): Result<seq<string>, PyError>
  {
    match JamfServer(config)
    case Err(err) => Err(err)
    case Ok(e) => Ok(GeminiArgv(e))
  }

  /** The command list `setup_claude_code` builds, one `extend` per environment variable. */
  method BuildClaudeCommand(config: McpConfig) returns (r: Result<seq<string>, PyError>)
    ensures r == ClaudeCommand(config)
  {
    var found := JamfServer(config);
    if found.Err? {
      return Err(found.error);
    }
    var server := found.value;
    var cmd := ["claude", "mcp", "add", ServerName];
    for i := 0 to |server.env|
      invariant cmd == ["claude", "mcp", "add", ServerName] + EnvFlags(server.env[..i])
    {
      var (key, value) := server.env[i];
      assert server.env[..i + 1][..i] == server.env[..i];
      cmd := cmd + ["-e", key + "=" + value];
    }
    assert server.env[..|server.env|] == server.env;
    cmd := cmd + [server.command];
    cmd := cmd + server.args;
    r := Ok(cmd);
  }

  /** The command list `setup_gemini_cli` builds. */
  method BuildGeminiCommand(config: McpConfig) returns (r: Result<seq<string>, PyError>)
    ensures r == GeminiCommand(config)
  {
    var found := JamfServer(config);
    if found.Err? {
      return Err(found.error);
    }
    var server := found.value;
    var cmd := ["gemini", "mcp", "add", ServerName];
    for i := 0 to |server.env|
      invariant cmd == ["gemini", "mcp", "add", ServerName] + EnvFlags(server.env[..i])
    {
      var (key, value) := server.env[i];
      assert server.env[..i + 1][..i] == server.env[..i];
      cmd := cmd + ["-e", key + "=" + value];
    }
    assert server.env[..|server.env|] == server.env;
    cmd := cmd + ["--"];
    cmd := cmd + [server.command];
    assert cmd == ["gemini", "mcp", "add", ServerName] + EnvFlags(server.env) + ["--", server.command];
    cmd := cmd + server.args;
    r := Ok(cmd);
  }

  /** Every environment variable becomes the pair `-e`, `KEY=VALUE` at its own position. */
  lemma {:induction false} EnvFlagsLayout(env: seq<(string, string)>)
    ensures forall i :: 0 <= i < |env| ==>
      EnvFlags(env)[2 * i] == "-e" && EnvFlags(env)[2 * i + 1] == env[i].0 + "=" + env[i].1
    decreases |env|
  {
    if env != [] {
      var init := env[..|env| - 1];
      EnvFlagsLayout(init);
      forall i | 0 <= i < |env|
        ensures EnvFlags(env)[2 * i] == "-e" && EnvFlags(env)[2 * i + 1] == env[i].0 + "=" + env[i].1
      {
        if i < |env| - 1 {
          assert env[i] == init[i];
        }
      }
    }
  }

  /** The Claude Code command: fixed head, the flags, then the launcher and its arguments. */
  lemma ClaudeArgvLayout(e: ServerEntry)
    ensures var argv := ClaudeArgv(e);
      && |argv| == 5 + 2 * |e.env| + |e.args|
      && argv[..4] == ["claude", "mcp", "add", ServerName]
      && (forall i :: 0 <= i < |e.env| ==>
            argv[4 + 2 * i] == "-e" && argv[5 + 2 * i] == e.env[i].0 + "=" + e.env[i].1)
      && argv[4 + 2 * |e.env|] == e.command
      && argv[5 + 2 * |e.env|..] == e.args
  {
    EnvFlagsLayout(e.env);
    var argv := ClaudeArgv(e);
    forall i | 0 <= i < |e.env|
      ensures argv[4 + 2 * i] == "-e" && argv[5 + 2 * i] == e.env[i].0 + "=" + e.env[i].1
    {
      assert argv[4 + 2 * i] == EnvFlags(e.env)[2 * i];
      assert argv[5 + 2 * i] == EnvFlags(e.env)[2 * i + 1];
    }
  }

  /** The Gemini command is the Claude command with `gemini` in front and `--` before the launcher. */
  lemma GeminiIsClaudeWithSeparator(e: ServerEntry)
    ensures var c := ClaudeArgv(e);
      var n := 4 + 2 * |e.env|;
      GeminiArgv(e) == ["gemini"] + c[1..n] + ["--"] + c[n..]
  {
    var c := ClaudeArgv(e);
    var n := 4 + 2 * |e.env|;
    assert c[1..n] == ["mcp", "add", ServerName] + EnvFlags(e.env);
    assert c[n..] == [e.command] + e.args;
  }

  /** Both builders fail together, and only when JamfMCP has no entry in the configuration. */
  lemma CommandsFailTogether(config: McpConfig)
    ensures ClaudeCommand(config).Err? <==> GeminiCommand(config).Err?
    ensures ClaudeCommand(config).Err? <==> LookupServer(config, ServerName).None?
  {
  }

  /** The index of the first `=` in `s`, if any. */
  function FirstEq(s: string): (r: Option<nat>)
    ensures r.None? <==> '=' !in s
    ensures r.Some? ==> r.value < |s| && s[r.value] == '=' && '=' !in s[..r.value]
  {
    if s == [] then None
    else if s[0] == '=' then Some(0)
    else match FirstEq(s[1..])
      case None => None
      case Some(j) =>
        assert s[..j + 1] == [s[0]] + s[1..][..j];
        Some(j + 1)
  }

  /** How a `-e KEY=VALUE` argument is read: split at the first `=`. */
  function SplitAssignment(s: string): Option<(string, string)>
  {
    match FirstEq(s)
    case None => None
    case Some(i) => Some((s[..i], s[i + 1..]))
  }

  /** Reads the environment back out of a flag list; None when it is not a list of `-e K=V` pairs. */
  function ParseEnvFlags(flags: seq<string>): Option<seq<(string, string)>>
    decreases |flags|
  {
    if flags == [] then Some([])
    else if |flags| < 2 || flags[|flags| - 2] != "-e" then None
    else match (ParseEnvFlags(flags[..|flags| - 2]), SplitAssignment(flags[|flags| - 1]))
      case (Some(init), Some(kv)) => Some(init + [kv])
      case _ => None
  }

  lemma {:induction false} FirstEqAfterKey(key: string, rest: string)
    requires '=' !in key
    ensures FirstEq(key + "=" + rest) == Some(|key|)
    decreases |key|
  {
    if key != [] {
      assert (key + "=" + rest)[1..] == key[1..] + "=" + rest;
      FirstEqAfterKey(key[1..], rest);
    }
  }

  lemma SplitAssignmentRoundTrip(key: string, value: string)
    requires '=' !in key
    ensures SplitAssignment(key + "=" + value) == Some((key, value))
  {
    var s := key + "=" + value;
    FirstEqAfterKey(key, value);
    assert s[..|key|] == key;
    assert s[|key| + 1..] == value;
  }

  /**
   * The flags carry the environment faithfully: when no variable name contains `=`, the
   * receiving CLI splitting each `KEY=VALUE` at its first `=` recovers every pair in order.
   */
  lemma {:induction false} EnvFlagsRoundTrip(env: seq<(string, string)>)
    requires forall i :: 0 <= i < |env| ==> '=' !in env[i].0
    ensures ParseEnvFlags(EnvFlags(env)) == Some(env)
    decreases |env|
  {
    if env != [] {
      var init := env[..|env| - 1];
      var (key, value) := env[|env| - 1];
      var flags := EnvFlags(env);
      EnvFlagsRoundTrip(init);
      SplitAssignmentRoundTrip(key, value);
      assert flags[..|flags| - 2] == EnvFlags(init);
      assert init + [(key, value)] == env;
    }
  }

  /** The Claude Code command for an entry shaped like the one `generate_mcp_config` writes. */
  lemma UvxEntryCommand(e: ServerEntry, url: string, authType: string)
    requires e.command == "uvx" && e.args == UvxArgs && |e.env| == 4
    requires e.env[..2] == [("JAMF_URL", url), ("JAMF_AUTH_TYPE", authType)]
    requires forall i :: 0 <= i < |e.env| ==> '=' !in e.env[i].0
    ensures |ClaudeArgv(e)| == 18
    ensures ClaudeArgv(e)[12..] == ["uvx"] + UvxArgs
    ensures ClaudeArgv(e)[4..8] == ["-e", "JAMF_URL=" + url, "-e", "JAMF_AUTH_TYPE=" + authType]
    ensures ParseEnvFlags(ClaudeArgv(e)[4..12]) == Some(e.env)
  {
    ClaudeArgvLayout(e);
    var argv := ClaudeArgv(e);
    assert e.env[0] == ("JAMF_URL", url) && e.env[1] == ("JAMF_AUTH_TYPE", authType);
    assert argv[4..12] == EnvFlags(e.env);
    EnvFlagsRoundTrip(e.env);
    assert argv[4] == "-e" && argv[5] == "JAMF_URL=" + url;
    assert argv[6] == "-e" && argv[7] == "JAMF_AUTH_TYPE=" + authType;
    assert argv[12..] == [argv[12]] + argv[13..];
  }

  /**
   * For the configuration `setup` generates, Claude Code is told to run `uvx` with the
   * JamfMCP arguments and receives the URL, authentication type and both credentials.
   */
  lemma GeneratedClaudeCommand(authType: string, url: string, credentials: map<string, string>)
    requires GenerateMcpConfig(authType, url, credentials).Ok?
    ensures var config := GenerateMcpConfig(authType, url, credentials).value;
      var e := config.mcpServers[0].1;
      && ClaudeCommand(config) == Ok(ClaudeArgv(e))
      && |ClaudeArgv(e)| == 18
      && ClaudeArgv(e)[12..] == ["uvx"] + UvxArgs
      && ClaudeArgv(e)[4..8] == ["-e", "JAMF_URL=" + url, "-e", "JAMF_AUTH_TYPE=" + authType]
      && ParseEnvFlags(ClaudeArgv(e)[4..12]) == Some(e.env)
  {
    var config := GenerateMcpConfig(authType, url, credentials).value;
    var e := config.mcpServers[0].1;
    assert config.mcpServers[..0] == [];
    assert LookupServer(config, ServerName) == Some(e);
    var (n1, n2) := CredentialEnvNames(authType);
    assert e.env[2].0 == n1 && e.env[3].0 == n2;
    assert '=' !in n1 && '=' !in n2;
    UvxEntryCommand(e, url, authType);
  }
}
