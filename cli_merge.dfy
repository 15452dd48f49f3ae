/**
 * `write_platform_config` (src/jamfmcp/cli.py): CLI platforms get a registration
 * command, `mcp-json` prints the entry, and file platforms have the generated servers
 * merged into whatever configuration document is already there. Whether the file
 * exists and what `json.load` made of it are parameters; the file system is not modelled.
 */
module CliMerge {
  import opened Wrappers
  import opened JsonValue
  import opened CliConfig
  import opened CliCommands
  import opened CliPlatforms

  /** The configuration file before the write: absent, not valid JSON, or a parsed document. */
  datatype ExistingFile = Missing | Unparseable | Parsed(document: Json)

  /** `existing_config`: `{}` unless the file exists and parses. */
  function LoadedConfig(existing: ExistingFile): (j: Json)
    ensures existing.Parsed? ==> j == existing.document
    ensures !existing.Parsed? ==> j == Object([])
  {
    match existing
    case Parsed(d) => d
    case _ => Object([])
  }

  /** The value `dict.update` gives `k` from `gs`: the last one, as later pairs overwrite earlier ones. */
  function LastValue(gs: seq<Member>, k: string): (r: Option<Json>)
    ensures r.None? <==> k !in Keys(gs)
  {
    if gs == [] then None
    else
      KeysAppend(gs[..|gs| - 1], [gs[|gs| - 1]]);
      assert gs == gs[..|gs| - 1] + [gs[|gs| - 1]];
      if gs[|gs| - 1].key == k then Some(gs[|gs| - 1].value)
      else LastValue(gs[..|gs| - 1], k)
  }

  /** `d.update(other)`: each member of `other`, in order, created into `d`. */
  function UpdateMembers(fs: seq<Member>, gs: seq<Member>): (r: seq<Member>)
    ensures |fs| <= |r| <= |fs| + |gs|
  {
    if gs == [] then fs
    else
      var last := gs[|gs| - 1];
      Set(UpdateMembers(fs, gs[..|gs| - 1]), last.key, last.value)
  }

  /** After `d.update(other)`, a key holds other's value if other has it, and its old value if not. */
  lemma {:induction false} UpdateGet(fs: seq<Member>, gs: seq<Member>, k: string)
    ensures Get(UpdateMembers(fs, gs), k) ==
      match LastValue(gs, k) case Some(v) => Some(v) case None => Get(fs, k)
    decreases |gs|
  {
    if gs != [] {
      UpdateGet(fs, gs[..|gs| - 1], k);
    }
  }

  /** `d.update(other)` never introduces a duplicate key. */
  lemma {:induction false} UpdateDistinct(fs: seq<Member>, gs: seq<Member>)
    requires DistinctKeys(fs)
    ensures DistinctKeys(UpdateMembers(fs, gs))
    decreases |gs|
  {
    if gs != [] {
      UpdateDistinct(fs, gs[..|gs| - 1]);
    }
  }

  /** `d.update(other)` keeps every key of `d` where it was; new keys only come after them. */
  lemma {:induction false} UpdateKeepsOrder(fs: seq<Member>, gs: seq<Member>)
    ensures Keys(fs) <= Keys(UpdateMembers(fs, gs))
    decreases |gs|
  {
    if gs != [] {
      var prev := UpdateMembers(fs, gs[..|gs| - 1]);
      UpdateKeepsOrder(fs, gs[..|gs| - 1]);
      assert Keys(prev) <= Keys(UpdateMembers(fs, gs));
    }
  }

  /** After `d.update(other)` the keys are those of `d` and those of `other`, and no others. */
  lemma UpdateKeySet(fs: seq<Member>, gs: seq<Member>, k: string)
    ensures k in Keys(UpdateMembers(fs, gs)) <==> k in Keys(fs) || k in Keys(gs)
  {
    UpdateGet(fs, gs, k);
  }

  /** In a dict whose keys are distinct, the last value given for a key is the value stored under it. */
  lemma {:induction false} LastValueIsGet(gs: seq<Member>, k: string)
    requires DistinctKeys(gs)
    ensures LastValue(gs, k) == Get(gs, k)
    decreases |gs|
  {
    if gs != [] {
      var init := gs[..|gs| - 1];
      var m := gs[|gs| - 1];
      assert gs == init + [m];
      assert DistinctKeys(init);
      if m.key == k {
        assert m.key !in Keys(init) by {
          forall j | 0 <= j < |init| ensures Keys(init)[j] != m.key {
            assert init[j] == gs[j];
          }
        }
        IndexOfAppend(init, m);
      } else {
        LastValueIsGet(init, k);
        IndexOfAppendOther(init, m, k);
      }
    }
  }

  /** `d.update(other)` with a real dict `other`: a key holds `other[k]` if `other` has it, else `d[k]`. */
  lemma UpdateGetDict(fs: seq<Member>, gs: seq<Member>, k: string)
    requires DistinctKeys(gs)
    ensures Get(UpdateMembers(fs, gs), k) == if k in Keys(gs) then Get(gs, k) else Get(fs, k)
  {
    UpdateGet(fs, gs, k);
    LastValueIsGet(gs, k);
  }

  /**
   * The typed server list and the `mcpServers` object written for it agree: the last entry
   * given for a name is the one the JSON object ends up holding under that name.
   */
  lemma {:induction false} LookupServerIsLastValue(config: McpConfig, name: string)
    ensures LastValue(ServersJson(config), name) ==
      match LookupServer(config, name) case Some(e) => Some(ServerEntryJson(e)) case None => None
    decreases |config.mcpServers|
  {
    var s := config.mcpServers;
    if s != [] {
      var init := McpConfig(s[..|s| - 1]);
      assert ServersJson(config)[..|s| - 1] == ServersJson(init);
      LookupServerIsLastValue(init, name);
    }
  }

  /** The servers already configured: `existing_config["mcpServers"]`, or `{}` when absent. */
  function ExistingServers(base: Json): (fs: seq<Member>)
    requires base.Object?
    ensures "mcpServers" !in Keys(base.fields) ==> fs == []
    ensures "mcpServers" in Keys(base.fields) && Get(base.fields, "mcpServers").value.Object? ==>
      fs == Get(base.fields, "mcpServers").value.fields
  {
    match Get(base.fields, "mcpServers")
    case Some(Object(gs)) => gs
    case _ => []
  }

  /**
   * The merge of `write_platform_config`: make sure `mcpServers` exists, then update it with
   * the new servers. Only a dict document with a dict (or no) `mcpServers` can be merged:
   * `in`, `[]` and item assignment raise TypeError on anything else, and `.update` is
   * missing (AttributeError) on a non-dict `mcpServers`.
   */
  method MergeServerConfig(existing: ExistingFile, newServers: seq<Member>) returns (r: Result<Json, PyError>)
    ensures var base := LoadedConfig(existing);
      r.Err? <==> !base.Object? || ("mcpServers" in Keys(base.fields) && !Get(base.fields, "mcpServers").value.Object?)
    ensures var base := LoadedConfig(existing);
      r.Err? ==> r.error == (if base.Object? then AttributeError else TypeError)
    ensures var base := LoadedConfig(existing);
      r.Ok? ==>
        && r.value.Object?
        && Get(r.value.fields, "mcpServers") == Some(Object(UpdateMembers(ExistingServers(base), newServers)))
        && (forall k :: k != "mcpServers" ==> Get(r.value.fields, k) == Get(base.fields, k))
        && Keys(r.value.fields) ==
             if "mcpServers" in Keys(base.fields) then Keys(base.fields) else Keys(base.fields) + ["mcpServers"]
  {
    var config := LoadedConfig(existing);
    var present := Contains(config, "mcpServers");
    if present.Err? {
      return Err(present.error);
    }
    if !present.value {
      var created := SetItem(config, "mcpServers", Object([]));
      if created.Err? {
        return Err(created.error);
      }
      config := created.value;
    }
    var servers := Subscript(config, "mcpServers");
    if servers.Err? {
      return Err(servers.error);
    }
    if !servers.value.Object? {
      return Err(AttributeError);
    }
    var merged := UpdateMembers(servers.value.fields, newServers);
    r := SetItem(config, "mcpServers", Object(merged));
  }

  /**
   * Merging a generated configuration installs exactly the JamfMCP entry: it is now the
   * generated one, every other configured server is as it was, and the servers keep their order.
   */
  lemma InstallGeneratedServer(servers: seq<Member>, authType: string, url: string, credentials: map<string, string>)
    requires DistinctKeys(servers)
    requires GenerateMcpConfig(authType, url, credentials).Ok?
    ensures var config := GenerateMcpConfig(authType, url, credentials).value;
      var merged := UpdateMembers(servers, ServersJson(config));
      && Get(merged, ServerName) == Some(ServerEntryJson(config.mcpServers[0].1))
      && (forall name :: name != ServerName ==> Get(merged, name) == Get(servers, name))
      && Keys(servers) <= Keys(merged)
      && DistinctKeys(merged)
  {
    var config := GenerateMcpConfig(authType, url, credentials).value;
    var gs := ServersJson(config);
    assert gs == [Member(ServerName, ServerEntryJson(config.mcpServers[0].1))];
    assert gs[..0] == [];
    UpdateGet(servers, gs, ServerName);
    forall name | name != ServerName
      ensures Get(UpdateMembers(servers, gs), name) == Get(servers, name)
    {
      UpdateGet(servers, gs, name);
    }
    UpdateDistinct(servers, gs);
    UpdateKeepsOrder(servers, gs);
  }

  /** What `write_platform_config` ends up doing. */
  datatype WriteOutcome =
    | RanCommand(argv: seq<string>)
    | PrintedEntry(entry: Json)
    | WroteFile(path: string, backedUp: bool, document: Json)
    | NothingDone
    | Raised(error: PyError)

  /**
   * `write_platform_config(platform_name, config)` on an operating system called `system`,
   * with `existing` the file found at the platform's path.
   */
  method WritePlatformConfig(platformName: string, system: string, config: McpConfig, existing: ExistingFile)
    returns (o: WriteOutcome)
    ensures GetPlatformConfigPath(platformName, system).None? ==>
      o == if platformName == "claude-code" then
             (match ClaudeCommand(config) case Ok(argv) => RanCommand(argv) case Err(e) => Raised(e))
           else if platformName == "gemini-cli" then
             (match GeminiCommand(config) case Ok(argv) => RanCommand(argv) case Err(e) => Raised(e))
           else if platformName == "mcp-json" then
             (match JamfServer(config) case Ok(e) => PrintedEntry(ServerEntryJson(e)) case Err(e) => Raised(e))
           else NothingDone
    ensures GetPlatformConfigPath(platformName, system).Some? ==>
      (o.WroteFile? || o.Raised?)
      && (o.WroteFile? ==>
            && LoadedConfig(existing).Object?
            && o.path == GetPlatformConfigPath(platformName, system).value
            && o.backedUp == !existing.Missing?
            && o.document.Object?
            && Get(o.document.fields, "mcpServers") ==
                 Some(Object(UpdateMembers(ExistingServers(LoadedConfig(existing)), ServersJson(config))))
            && (forall k :: k != "mcpServers" ==> Get(o.document.fields, k) == Get(LoadedConfig(existing).fields, k))
            && Keys(o.document.fields) ==
                 var base := LoadedConfig(existing);
                 if "mcpServers" in Keys(base.fields) then Keys(base.fields) else Keys(base.fields) + ["mcpServers"])
      && (o.Raised? ==> o.error == if LoadedConfig(existing).Object? then AttributeError else TypeError)
      && (o.WroteFile? <==>
            var base := LoadedConfig(existing);
            base.Object? && ("mcpServers" in Keys(base.fields) ==> Get(base.fields, "mcpServers").value.Object?))
  {
    var path := GetPlatformConfigPath(platformName, system);
    if path.None? {
      if platformName == "claude-code" {
        var cmd := BuildClaudeCommand(config);
        o := if cmd.Ok? then RanCommand(cmd.value) else Raised(cmd.error);
      } else if platformName == "gemini-cli" {
        var cmd := BuildGeminiCommand(config);
        o := if cmd.Ok? then RanCommand(cmd.value) else Raised(cmd.error);
      } else if platformName == "mcp-json" {
        var entry := JamfServer(config);
        o := if entry.Ok? then PrintedEntry(ServerEntryJson(entry.value)) else Raised(entry.error);
      } else {
        o := NothingDone;
      }
      return;
    }
    var backedUp := !existing.Missing?;
    var merged := MergeServerConfig(existing, ServersJson(config));
    if merged.Err? {
      return Raised(merged.error);
    }
    o := WroteFile(path.value, backedUp, merged.value);
  }
}
