/**
 * The configuration migration of the `update` command (src/jamfmcp/cli.py): a JamfMCP
 * entry still launched with the old `python` command is rewritten to launch through
 * `uv`, keeping its environment, and the file is written back only when something changed.
 * Reading, backing up and writing the file are not modelled; the loaded document is the input.
 */
module CliUpdate {
  import opened Wrappers
  import opened JsonValue
  import opened CliConfig

  /** The arguments of the `uv` launcher the migration installs. */
  const UvArgs: seq<string> := ["run", "--with", "jamfmcp", "python", "-m", "jamfmcp.server"]

  /** What the migration does to one platform's document. */
  datatype Migration =
    | Unchanged
    | Rewritten(config: Json)
    | Failed(error: PyError)

  /** `server_config.get("command") == "python"`: only the string `python` compares equal. */
  lemma PythonCommandTest(v: Json)
    ensures PyEq(v, Str("python")) <==> v == Str("python")
  {
  }

  /** Whether a JamfMCP entry still uses the old launcher. */
  predicate UsesPython(serverConfig: Json)
    requires serverConfig.Object?
  {
    Get(serverConfig.fields, "command") == Some(Str("python"))
  }

  /**
   * The rewritten entry: `command` is `uv`, `args` the fixed `uv` arguments, `env` what it
   * was (or `{}` if there was none); every other key of the entry is as it was.
   */
  ghost predicate MigratedEntry(before: Json, after: Json)
    requires before.Object?
  {
    && after.Object?
    && Get(after.fields, "command") == Some(Str("uv"))
    && Get(after.fields, "args") == Some(StrList(UvArgs))
    && Get(after.fields, "env") == Some(match Get(before.fields, "env") case Some(env) => env case None => Object([]))
    && (forall k :: k !in {"command", "args", "env"} ==> Get(after.fields, k) == Get(before.fields, k))
  }

  /**
   * The rewritten document: only the JamfMCP entry changed; every other server and
   * every other top-level key is as it was, and no key moved.
   */
  ghost predicate MigratedDocument(before: Json, after: Json)
    requires before.Object? && Get(before.fields, "mcpServers").Some? && Get(before.fields, "mcpServers").value.Object?
  {
    var servers := Get(before.fields, "mcpServers").value;
    && after.Object?
    && Keys(after.fields) == Keys(before.fields)
    && (forall k :: k != "mcpServers" ==> Get(after.fields, k) == Get(before.fields, k))
    && Get(after.fields, "mcpServers").Some?
    && Get(after.fields, "mcpServers").value.Object?
    && Keys(Get(after.fields, "mcpServers").value.fields) == Keys(servers.fields)
    && (forall name :: name != ServerName ==>
          Get(Get(after.fields, "mcpServers").value.fields, name) == Get(servers.fields, name))
  }

  /** Setting `command`, `args` and `env` one after the other gives the migrated entry. */
  lemma RewriteEntry(fs: seq<Member>, env: Json)
    requires env == match Get(fs, "env") case Some(e) => e case None => Object([])
    ensures MigratedEntry(Object(fs),
      Object(Set(Set(Set(fs, "command", Str("uv")), "args", StrList(UvArgs)), "env", env)))
  {
    var f1 := Set(fs, "command", Str("uv"));
    var f2 := Set(f1, "args", StrList(UvArgs));
    var f3 := Set(f2, "env", env);
    assert Get(f3, "command") == Get(f2, "command") == Get(f1, "command") == Some(Str("uv"));
    assert Get(f3, "args") == Get(f2, "args") == Some(StrList(UvArgs));
    assert Get(f3, "env") == Some(env);
    forall k | k !in {"command", "args", "env"}
      ensures Get(f3, k) == Get(fs, k)
    {
      assert k != "command" && k != "args" && k != "env";
      assert Get(f3, k) == Get(f2, k) == Get(f1, k) == Get(fs, k);
    }
  }

  /** Replacing the JamfMCP entry inside `mcpServers` changes nothing else in the document. */
  lemma ReplaceServer(config: Json, entry: Json)
    requires config.Object? && Get(config.fields, "mcpServers").Some? && Get(config.fields, "mcpServers").value.Object?
    requires ServerName in Keys(Get(config.fields, "mcpServers").value.fields)
    ensures var servers := Get(config.fields, "mcpServers").value;
      var after := Object(Set(config.fields, "mcpServers", Object(Set(servers.fields, ServerName, entry))));
      && MigratedDocument(config, after)
      && Get(Get(after.fields, "mcpServers").value.fields, ServerName) == Some(entry)
  {
    var servers := Get(config.fields, "mcpServers").value;
    assert "mcpServers" in Keys(config.fields);
    var newServers := Set(servers.fields, ServerName, entry);
    var after := Object(Set(config.fields, "mcpServers", Object(newServers)));
    assert Get(after.fields, "mcpServers") == Some(Object(newServers));
  }

  /**
   * The migration of one loaded document. The `update` command catches every exception
   * here and reports it; `Failed` is that case, and nothing is written then.
   */
  method MigrateConfig(config: Json) returns (m: Migration)
    ensures ConfiguredServer(config).Err? ==> m == Failed(ConfiguredServer(config).error)
    ensures ConfiguredServer(config) == Ok(None) ==> m == Unchanged
    ensures ConfiguredServer(config).Ok? && ConfiguredServer(config).value.Some? ==>
      var serverConfig := ConfiguredServer(config).value.value;
      && (!serverConfig.Object? ==> m == Failed(AttributeError))
      && (serverConfig.Object? && !UsesPython(serverConfig) ==> m == Unchanged)
      && (serverConfig.Object? && UsesPython(serverConfig) ==>
            && m.Rewritten?
            && MigratedDocument(config, m.config)
            && Get(Get(m.config.fields, "mcpServers").value.fields, ServerName).Some?
            && MigratedEntry(serverConfig, Get(Get(m.config.fields, "mcpServers").value.fields, ServerName).value))
  {
    var found := ConfiguredServer(config);
    if found.Err? {
      return Failed(found.error);
    }
    if found.value.None? {
      return Unchanged;
    }
    var serverConfig := found.value.value;
    var updated := false;
    var command := GetOr(serverConfig, "command", Null);
    if command.Err? {
      return Failed(command.error);
    }
    PythonCommandTest(command.value);
    if PyEq(command.value, Str("python")) {
      var env := GetOr(serverConfig, "env", Object([])).value;
      RewriteEntry(serverConfig.fields, env);
      var fields := serverConfig.fields;
      fields := Set(fields, "command", Str("uv"));
      fields := Set(fields, "args", StrList(UvArgs));
      fields := Set(fields, "env", env);
      serverConfig := Object(fields);
      updated := true;
    }
    if !updated {
      return Unchanged;
    }
    // The entry was changed in place, so the document now holds the new entry under the
    // same key of the same `mcpServers` dict.
    var servers := Get(config.fields, "mcpServers").value;
    ReplaceServer(config, serverConfig);
    var newServers := Set(servers.fields, ServerName, serverConfig);
    m := Rewritten(Object(Set(config.fields, "mcpServers", Object(newServers))));
  }

  /** A document with a dict `mcpServers` holding a JamfMCP entry yields that entry. */
  lemma ConfiguredServerOf(config: Json)
    requires config.Object? && Get(config.fields, "mcpServers").Some? && Get(config.fields, "mcpServers").value.Object?
    requires ServerName in Keys(Get(config.fields, "mcpServers").value.fields)
    ensures ConfiguredServer(config) == Ok(Get(Get(config.fields, "mcpServers").value.fields, ServerName))
  {
  }

  /**
   * A second run has nothing to do: after the rewrite the JamfMCP entry's command is `uv`,
   * so the migration leaves the document unchanged.
   */
  lemma MigrationSettles(config: Json, env: Json)
    requires config.Object? && Get(config.fields, "mcpServers").Some? && Get(config.fields, "mcpServers").value.Object?
    requires ServerName in Keys(Get(config.fields, "mcpServers").value.fields)
    requires Get(Get(config.fields, "mcpServers").value.fields, ServerName).value.Object?
    ensures var servers := Get(config.fields, "mcpServers").value;
      var previous := Get(servers.fields, ServerName).value;
      var entry := Object(Set(Set(Set(previous.fields, "command", Str("uv")), "args", StrList(UvArgs)), "env", env));
      var after := Object(Set(config.fields, "mcpServers", Object(Set(servers.fields, ServerName, entry))));
      && ConfiguredServer(after) == Ok(Some(entry))
      && !UsesPython(entry)
  {
    var servers := Get(config.fields, "mcpServers").value;
    var previous := Get(servers.fields, ServerName).value;
    var f1 := Set(previous.fields, "command", Str("uv"));
    var f2 := Set(f1, "args", StrList(UvArgs));
    var entry := Object(Set(f2, "env", env));
    assert Get(entry.fields, "command") == Get(f2, "command") == Get(f1, "command") == Some(Str("uv"));
    ReplaceServer(config, entry);
    var after := Object(Set(config.fields, "mcpServers", Object(Set(servers.fields, ServerName, entry))));
    assert "mcpServers" in Keys(config.fields);
    ConfiguredServerOf(after);
  }
}
