/**
 * Where each AI platform keeps its MCP configuration (`PLATFORM_CONFIGS` and
 * `get_platform_config_path` in src/jamfmcp/cli.py). The operating-system name that
 * `platform.system()` reports is a parameter; `~` is left unexpanded.
 */
module CliPlatforms {
  import opened Wrappers

  /** A table entry: one path per operating system, one path everywhere, or no file at all. */
  datatype PlatformPaths =
    | PerOs(paths: map<string, string>)
    | Everywhere(path: string)
    | NoFile

  const ClaudeDesktopDarwin := "~/Library/Application Support/Claude/claude_desktop_config.json"
  const ClaudeDesktopLinux := "~/.config/Claude/claude_desktop_config.json"
  const CursorPath := "~/.cursor/mcp.json"

  /** `PLATFORM_CONFIGS`: the CLI-driven platforms and raw JSON output have no file. */
  const PlatformConfigs: map<string, PlatformPaths> := map[
    "claude-desktop" := PerOs(map["darwin" := ClaudeDesktopDarwin, "linux" := ClaudeDesktopLinux]),
    "cursor" := Everywhere(CursorPath),
    "claude-code" := NoFile,
    "gemini-cli" := NoFile,
    "mcp-json" := NoFile
  ]

  /** ASCII `str.lower()`. */
  function ToLower(s: string): (r: string)
    ensures |r| == |s|
    ensures forall i :: 0 <= i < |s| ==> r[i] == (if 'A' <= s[i] <= 'Z' then (s[i] as int + 32) as char else s[i])
  {
    seq(|s|, i requires 0 <= i < |s| => if 'A' <= s[i] <= 'Z' then (s[i] as int + 32) as char else s[i])
  }

  /** `get_platform_config_path(platform_name)` on an operating system called `system`. */
  function GetPlatformConfigPath(platformName: string, system: string): (r: Option<string>)
    ensures platformName in {"claude-code", "gemini-cli", "mcp-json"} ==> r.None?
    ensures platformName !in PlatformConfigs ==> r.None?
    ensures r.Some? ==> platformName in {"claude-desktop", "cursor"} && r.value != ""
    ensures platformName == "cursor" ==> r == Some(CursorPath)
    ensures platformName == "claude-desktop" ==>
      r == (if ToLower(system) == "darwin" then Some(ClaudeDesktopDarwin)
            else if ToLower(system) == "linux" then Some(ClaudeDesktopLinux)
            else None)
  {
    if platformName !in PlatformConfigs then None
    else match PlatformConfigs[platformName]
      case NoFile => None
      case Everywhere(p) => Some(p)
      case PerOs(paths) =>
        var os := ToLower(system);
        // `if path_str:` treats a missing and an empty entry alike
        if os in paths && paths[os] != "" then Some(paths[os]) else None
  }

  /** Lower-casing twice changes nothing more. */
  lemma ToLowerIdempotent(s: string)
    ensures ToLower(ToLower(s)) == ToLower(s)
  {
  }

  /** The lookup ignores the case of the operating-system name. */
  lemma LookupIgnoresOsCase(platformName: string, system: string)
    ensures GetPlatformConfigPath(platformName, system) == GetPlatformConfigPath(platformName, ToLower(system))
  {
    ToLowerIdempotent(system);
  }

  /** Cursor's file is in the same place on every operating system. */
  lemma CursorPathEverywhere(system1: string, system2: string)
    ensures GetPlatformConfigPath("cursor", system1) == GetPlatformConfigPath("cursor", system2) == Some(CursorPath)
  {
  }

  /** Claude Desktop has no file location on Windows, so nothing is returned there. */
  lemma ClaudeDesktopNotOnWindows()
    ensures GetPlatformConfigPath("claude-desktop", "Windows").None?
    ensures GetPlatformConfigPath("claude-desktop", "Darwin") == Some(ClaudeDesktopDarwin)
  {
    assert ToLower("Windows") == "windows";
    assert ToLower("Darwin") == "darwin";
  }
}
