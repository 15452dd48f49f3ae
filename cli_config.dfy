/**
 * The MCP server entry the CLI writes for JamfMCP (`generate_mcp_config` in
 * src/jamfmcp/cli.py), the URL and credential handling of `setup` that feeds it, and
 * the way `validate` and `doctor` read the connection settings back out of a stored
 * configuration document.
 */
module CliConfig {
  import opened Wrappers
  import opened JsonValue

  /** `SERVER_NAME`. */
  const ServerName := "jamfmcp"

  /** The arguments of the `uvx` launcher written by `generate_mcp_config`. */
  const UvxArgs: seq<string> := ["--from", "jamfmcp", "fastmcp", "run", "jamfmcp.server:mcp"]

  /** One entry of `mcpServers`; `env` keeps the insertion order of the Python dict. */
  datatype ServerEntry = ServerEntry(command: string, args: seq<string>, env: seq<(string, string)>)

  /** `{"mcpServers": {name: entry, ...}}` as `generate_mcp_config` builds it. */
  datatype McpConfig = McpConfig(mcpServers: seq<(string, ServerEntry)>)

  /** The value stored under `k` in an environment block (its keys are distinct). */
  function EnvGet(env: seq<(string, string)>, k: string): Option<string>
  {
    if env == [] then None
    else if env[0].0 == k then Some(env[0].1)
    else EnvGet(env[1..], k)
  }

  predicate EnvKeysDistinct(env: seq<(string, string)>)
  {
    forall i, j :: 0 <= i < j < |env| ==> env[i].0 != env[j].0
  }

  /** `config["mcpServers"][name]`: a dict built from pairs keeps the last value given for a key. */
  function LookupServer(config: McpConfig, name: string): Option<ServerEntry>
  {
    LookupLast(config.mcpServers, name)
  }

  function LookupLast(servers: seq<(string, ServerEntry)>, name: string): Option<ServerEntry>
  {
    if servers == [] then None
    else if servers[|servers| - 1].0 == name then Some(servers[|servers| - 1].1)
    else LookupLast(servers[..|servers| - 1], name)
  }

  /** The two credential keys an authentication type reads: basic auth or, for anything else, OAuth. */
  function CredentialKeys(authType: string): (string, string)
  {
    if authType == "basic" then ("username", "password") else ("client_id", "client_secret")
  }

  /** The environment names those two credentials are stored under. */
  function CredentialEnvNames(authType: string): (string, string)
  {
    if authType == "basic" then ("JAMF_USERNAME", "JAMF_PASSWORD") else ("JAMF_CLIENT_ID", "JAMF_CLIENT_SECRET")
  }

  /**
   * `generate_mcp_config(auth_type, url, credentials)`; a missing credential raises
   * KeyError, the first credential being read first.
   */
  function GenerateMcpConfig(authType: string, url: string, credentials: map<string, string>): (r: Result<McpConfig, PyError>)
    ensures var (k1, k2) := CredentialKeys(authType);
      && (k1 !in credentials ==> r == Err(KeyError(k1)))
      && (k1 in credentials && k2 !in credentials ==> r == Err(KeyError(k2)))
      && (r.Ok? <==> k1 in credentials && k2 in credentials)
    ensures r.Ok? ==> |r.value.mcpServers| == 1 && r.value.mcpServers[0].0 == ServerName
    ensures r.Ok? ==>
      var e := r.value.mcpServers[0].1;
      var (k1, k2) := CredentialKeys(authType);
      var (n1, n2) := CredentialEnvNames(authType);
      && e.command == "uvx" && e.args == UvxArgs
      && e.env == [("JAMF_URL", url), ("JAMF_AUTH_TYPE", authType), (n1, credentials[k1]), (n2, credentials[k2])]
      && EnvKeysDistinct(e.env)
      && EnvGet(e.env, "JAMF_URL") == Some(url)
      && EnvGet(e.env, "JAMF_AUTH_TYPE") == Some(authType)
      && EnvGet(e.env, n1) == Some(credentials[k1])
      && EnvGet(e.env, n2) == Some(credentials[k2])
  {
    var (k1, k2) := CredentialKeys(authType);
    var (n1, n2) := CredentialEnvNames(authType);
    if k1 !in credentials then Err(KeyError(k1))
    else if k2 !in credentials then Err(KeyError(k2))
    else
      var env := [("JAMF_URL", url), ("JAMF_AUTH_TYPE", authType),
                  (n1, credentials[k1]), (n2, credentials[k2])];
      assert env[1..][1..] == [(n1, credentials[k1]), (n2, credentials[k2])];
      assert env[1..][1..][1..] == [(n2, credentials[k2])];
      assert n1 != "JAMF_URL" && n1 != "JAMF_AUTH_TYPE" && n2 != n1;
      assert EnvGet(env[1..][1..], n1) == Some(credentials[k1]);
      assert EnvGet(env[1..][1..][1..], n2) == Some(credentials[k2]);
      assert EnvGet(env[1..], n2) == EnvGet(env[1..][1..], n2);
      Ok(McpConfig([(ServerName, ServerEntry("uvx", UvxArgs, env))]))
  }

  /** `s.startswith(prefix)`. */
  predicate StartsWith(s: string, prefix: string)
  {
    prefix <= s
  }

  predicate HasWebScheme(url: string)
  {
    StartsWith(url, "http://") || StartsWith(url, "https://")
  }

  /** The URL check of `setup`: a URL without `http://` or `https://` gets `https://` in front. */
  function NormalizeUrl(url: string): (r: string)
    ensures HasWebScheme(r)
    ensures HasWebScheme(url) ==> r == url
    ensures !HasWebScheme(url) ==> r == "https://" + url
  {
    if HasWebScheme(url) then url else "https://" + url
  }

  /** Normalising a normalised URL changes nothing. */
  lemma NormalizeUrlIdempotent(url: string)
    ensures NormalizeUrl(NormalizeUrl(url)) == NormalizeUrl(url)
  {
  }

  /** A normalised URL is never empty, so it always counts as configured when read back. */
  lemma NormalizedUrlNonEmpty(url: string)
    ensures NormalizeUrl(url) != ""
  {
  }

  /** The credentials dict `setup` builds from the options or prompts of its authentication type. */
  function SetupCredentials(authType: string, username: string, password: string,
                            clientId: string, clientSecret: string): (c: map<string, string>)
    ensures var (k1, k2) := CredentialKeys(authType); c.Keys == {k1, k2}
    ensures authType == "basic" ==> c == map["username" := username, "password" := password]
    ensures authType != "basic" ==> c == map["client_id" := clientId, "client_secret" := clientSecret]
  {
    if authType == "basic" then map["username" := username, "password" := password]
    else map["client_id" := clientId, "client_secret" := clientSecret]
  }

  /** What `setup` hands to `generate_mcp_config`: the normalised URL and its own credentials. */
  function SetupConfig(authType: string, rawUrl: string, username: string, password: string,
                       clientId: string, clientSecret: string): (r: Result<McpConfig, PyError>)
    ensures r.Ok? && |r.value.mcpServers| == 1 && r.value.mcpServers[0].0 == ServerName
    ensures var env := r.value.mcpServers[0].1.env;
      && EnvGet(env, "JAMF_URL") == Some(NormalizeUrl(rawUrl))
      && EnvGet(env, "JAMF_AUTH_TYPE") == Some(authType)
      && (authType == "basic" ==>
            EnvGet(env, "JAMF_USERNAME") == Some(username) && EnvGet(env, "JAMF_PASSWORD") == Some(password))
      && (authType != "basic" ==>
            EnvGet(env, "JAMF_CLIENT_ID") == Some(clientId) && EnvGet(env, "JAMF_CLIENT_SECRET") == Some(clientSecret))
  {
    GenerateMcpConfig(authType, NormalizeUrl(rawUrl), SetupCredentials(authType, username, password, clientId, clientSecret))
  }

  /** `setup` always supplies the credentials its authentication type reads, so no KeyError can occur. */
  lemma SetupNeverMissesCredential(authType: string, rawUrl: string, username: string, password: string,
                                   clientId: string, clientSecret: string)
    ensures SetupConfig(authType, rawUrl, username, password, clientId, clientSecret).Ok?
  {
    var c := SetupCredentials(authType, username, password, clientId, clientSecret);
    var (k1, k2) := CredentialKeys(authType);
    assert k1 in c.Keys && k2 in c.Keys;
  }

  /** An environment block as the JSON object `json.dump` writes for it. */
  function EnvJson(env: seq<(string, string)>): (j: Json)
    ensures j.Object? && |j.fields| == |env|
    ensures forall i :: 0 <= i < |env| ==> j.fields[i] == Member(env[i].0, Str(env[i].1))
  {
    Object(seq(|env|, i requires 0 <= i < |env| => Member(env[i].0, Str(env[i].1))))
  }

  /** The typed environment block and the JSON object written for it answer every lookup alike. */
  lemma {:induction false} EnvGetIsGet(env: seq<(string, string)>, k: string)
    ensures Get(EnvJson(env).fields, k) == match EnvGet(env, k) case Some(v) => Some(Str(v)) case None => None
    decreases |env|
  {
    if env != [] {
      var fs := EnvJson(env).fields;
      assert fs[1..] == EnvJson(env[1..]).fields;
      if env[0].0 != k {
        EnvGetIsGet(env[1..], k);
      }
    }
  }

  /** A server entry as the JSON object it is written as: command, args, env, in that order. */
  function ServerEntryJson(e: ServerEntry): Json
  {
    Object([
      Member("command", Str(e.command)),
      Member("args", StrList(e.args)),
      Member("env", EnvJson(e.env))
    ])
  }

  /** The members of the `mcpServers` object of a generated configuration. */
  function ServersJson(config: McpConfig): (ms: seq<Member>)
    ensures |ms| == |config.mcpServers|
    ensures forall i :: 0 <= i < |ms| ==>
      ms[i] == Member(config.mcpServers[i].0, ServerEntryJson(config.mcpServers[i].1))
  {
    seq(|config.mcpServers|, i requires 0 <= i < |config.mcpServers| =>
      Member(config.mcpServers[i].0, ServerEntryJson(config.mcpServers[i].1)))
  }

  /**
   * `"mcpServers" in config and SERVER_NAME in config["mcpServers"]`, then
   * `config["mcpServers"][SERVER_NAME]`: the JamfMCP entry of a loaded document, None when
   * it is not configured, or the exception Python's `in` and `[]` raise on non-dicts.
   */
  function ConfiguredServer(config: Json): (r: Result<Option<Json>, PyError>)
    ensures r.Ok? && r.value.Some? <==>
      && config.Object? && "mcpServers" in Keys(config.fields)
      && Get(config.fields, "mcpServers").value.Object?
      && ServerName in Keys(Get(config.fields, "mcpServers").value.fields)
    ensures r.Ok? && r.value.Some? ==>
      Some(r.value.value) == Get(Get(config.fields, "mcpServers").value.fields, ServerName)
    ensures config.Object? && "mcpServers" !in Keys(config.fields) ==> r == Ok(None)
  {
    match Contains(config, "mcpServers")
    case Err(e) => Err(e)
    case Ok(false) => Ok(None)
    case Ok(true) =>
      match Subscript(config, "mcpServers")
      case Err(e) => Err(e)
      case Ok(servers) =>
        match Contains(servers, ServerName)
        case Err(e) => Err(e)
        case Ok(false) => Ok(None)
        case Ok(true) =>
          match Subscript(servers, ServerName)
          case Err(e) => Err(e)
          case Ok(entry) => Ok(Some(entry))
  }

  /** The connection settings `validate` and `doctor` test: URL, authentication type and credentials. */
  datatype Connection = Connection(url: Json, authType: Json, credentials: map<string, Json>)

  /**
   * The credential extraction of `validate` and `doctor` from an `env` dict: nothing to
   * test when `JAMF_URL` is missing or falsy; the authentication type defaults to basic,
   * a missing credential to "". Only a dict has `.get`.
   */
  function StoredConnection(env: Json): (r: Result<Option<Connection>, PyError>)
    ensures r.Err? <==> !env.Object?
    ensures r.Ok? ==> (r.value.Some? <==> Truthy(GetOr(env, "JAMF_URL", Null).value))
    ensures r.Ok? && r.value.Some? ==>
      var c := r.value.value;
      && c.url == GetOr(env, "JAMF_URL", Null).value
      && c.authType == GetOr(env, "JAMF_AUTH_TYPE", Str("basic")).value
      && (c.authType == Str("basic") ==>
            c.credentials == map["username" := GetOr(env, "JAMF_USERNAME", Str("")).value,
                                 "password" := GetOr(env, "JAMF_PASSWORD", Str("")).value])
      && (c.authType != Str("basic") ==>
            c.credentials == map["client_id" := GetOr(env, "JAMF_CLIENT_ID", Str("")).value,
                                 "client_secret" := GetOr(env, "JAMF_CLIENT_SECRET", Str("")).value])
  {
    if !env.Object? then Err(AttributeError)
    else
      var url := GetOr(env, "JAMF_URL", Null).value;
      var authType := GetOr(env, "JAMF_AUTH_TYPE", Str("basic")).value;
      if !Truthy(url) then Ok(None)
      else
        var credentials :=
          if authType == Str("basic") then
            map["username" := GetOr(env, "JAMF_USERNAME", Str("")).value,
                "password" := GetOr(env, "JAMF_PASSWORD", Str("")).value]
          else
            map["client_id" := GetOr(env, "JAMF_CLIENT_ID", Str("")).value,
                "client_secret" := GetOr(env, "JAMF_CLIENT_SECRET", Str("")).value];
        Ok(Some(Connection(url, authType, credentials)))
  }

  /** `validate`: the env block is read only when the entry has one (`"env" in server_config`). */
  function ValidateEnv(serverConfig: Json): (r: Result<Option<Json>, PyError>)
    ensures serverConfig.Object? ==> r == Ok(Get(serverConfig.fields, "env"))
  {
    match Contains(serverConfig, "env")
    case Err(e) => Err(e)
    case Ok(false) => Ok(None)
    case Ok(true) =>
      match Subscript(serverConfig, "env")
      case Err(e) => Err(e)
      case Ok(env) => Ok(Some(env))
  }

  /** `doctor`: `server_config.get("env", {})`. */
  function DoctorEnv(serverConfig: Json): (r: Result<Json, PyError>)
    ensures r.Ok? <==> serverConfig.Object?
    ensures serverConfig.Object? ==> r.value == (match Get(serverConfig.fields, "env") case Some(v) => v case None => Object([]))
  {
    GetOr(serverConfig, "env", Object([]))
  }

  /** The connection `validate` would test for a server entry, if any. */
  function ValidateConnection(serverConfig: Json): (r: Result<Option<Connection>, PyError>)
    ensures serverConfig.Object? && "env" !in Keys(serverConfig.fields) ==> r == Ok(None)
    ensures serverConfig.Object? && "env" in Keys(serverConfig.fields) ==>
      (r.Err? <==> !Get(serverConfig.fields, "env").value.Object?)
    ensures r.Ok? && r.value.Some? ==> serverConfig.Object? && Truthy(r.value.value.url)
  {
    match ValidateEnv(serverConfig)
    case Err(e) => Err(e)
    case Ok(None) => Ok(None)
    case Ok(Some(env)) => StoredConnection(env)
  }

  /** The connection `doctor` would test for a server entry, if any. */
  function DoctorConnection(serverConfig: Json): (r: Result<Option<Connection>, PyError>)
    ensures r.Err? <==>
      !serverConfig.Object? || ("env" in Keys(serverConfig.fields) && !Get(serverConfig.fields, "env").value.Object?)
    ensures r.Ok? && r.value.Some? ==> "env" in Keys(serverConfig.fields) && Truthy(r.value.value.url)
  {
    match DoctorEnv(serverConfig)
    case Err(e) => Err(e)
    case Ok(env) => StoredConnection(env)
  }

  /** On any server entry that is a dict, `validate` and `doctor` extract the same connection. */
  lemma ValidateAndDoctorAgree(serverConfig: Json)
    requires serverConfig.Object?
    ensures ValidateConnection(serverConfig) == DoctorConnection(serverConfig)
  {
    if Get(serverConfig.fields, "env").None? {
      assert StoredConnection(Object([])) == Ok(None);
    }
  }

  /** Lookup in a JSON object with distinct keys finds every member. */
  lemma GetAt(fs: seq<Member>, i: nat)
    requires DistinctKeys(fs) && i < |fs|
    ensures Get(fs, fs[i].key) == Some(fs[i].value)
  {
    IndexOfUnique(fs, fs[i].key, Some(i));
  }

  /**
   * Round trip: reading back the env block that `generate_mcp_config` wrote yields the same
   * URL, authentication type and credentials; a blank URL means nothing to read back.
   */
  lemma {:induction false} StoredConnectionAfterGenerate(authType: string, url: string, credentials: map<string, string>)
    requires GenerateMcpConfig(authType, url, credentials).Ok?
    ensures var e := GenerateMcpConfig(authType, url, credentials).value.mcpServers[0].1;
      var (k1, k2) := CredentialKeys(authType);
      StoredConnection(EnvJson(e.env)) ==
        if url == "" then Ok(None)
        else Ok(Some(Connection(Str(url), Str(authType),
                                map[k1 := Str(credentials[k1]), k2 := Str(credentials[k2])])))
  {
    var e := GenerateMcpConfig(authType, url, credentials).value.mcpServers[0].1;
    var env := EnvJson(e.env);
    var fs := env.fields;
    var (n1, n2) := CredentialEnvNames(authType);
    assert DistinctKeys(fs);
    GetAt(fs, 0);
    GetAt(fs, 1);
    GetAt(fs, 2);
    GetAt(fs, 3);
    assert fs[2].key == n1 && fs[3].key == n2;
  }

  /**
   * End to end: whatever URL was typed at `setup`, the stored entry reads back with the
   * normalised URL, the chosen authentication type and exactly the credentials entered.
   */
  lemma SetupRoundTrip(authType: string, rawUrl: string, username: string, password: string,
                       clientId: string, clientSecret: string)
    ensures SetupConfig(authType, rawUrl, username, password, clientId, clientSecret).Ok?
    ensures var e := SetupConfig(authType, rawUrl, username, password, clientId, clientSecret).value.mcpServers[0].1;
      StoredConnection(EnvJson(e.env)) ==
        Ok(Some(Connection(Str(NormalizeUrl(rawUrl)), Str(authType),
          if authType == "basic" then map["username" := Str(username), "password" := Str(password)]
          else map["client_id" := Str(clientId), "client_secret" := Str(clientSecret)])))
  {
    SetupNeverMissesCredential(authType, rawUrl, username, password, clientId, clientSecret);
    NormalizedUrlNonEmpty(rawUrl);
    StoredConnectionAfterGenerate(authType, NormalizeUrl(rawUrl),
      SetupCredentials(authType, username, password, clientId, clientSecret));
  }
}
