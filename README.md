# JamfMCP core rules, modelled in Dafny

JamfMCP is an MCP server that exposes a Jamf Pro instance to AI assistants, plus a
`jamfmcp` command-line tool that installs that server into an assistant's configuration.
This project models the logic-bearing core of that repository and proves properties of it.

* **Classic API helpers** (`src/jamfmcp/jamfsdk/models/classic/__init__.py`):
  * `convert_datetime_to_jamf_iso` formats the timestamps the Classic API expects. The model is `JamfIso`.
  * `remove_fields` prunes empty dicts and lists before XML export. The model is `ClassicExport`.
* **CLI configuration rules** (`src/jamfmcp/cli.py`):
  * where each platform keeps its configuration (`CliPlatforms`);
  * the server entry `setup` generates, the URL and credential handling feeding it, and how `validate` and `doctor` read the connection back (`CliConfig`);
  * the `claude mcp add` / `gemini mcp add` command vectors (`CliCommands`);
  * the merge into an existing configuration file and the dispatch of `write_platform_config` (`CliMerge`);
  * the backup file name (`CliBackup`);
  * the `python` → `uv` migration of `update` (`CliUpdate`).

Python values are modelled by the `Json` datatype in `JsonValue`:
* Dicts are member sequences, so insertion order is kept.
* The Python built-ins the code relies on are written out with their exceptions:
  * truthiness;
  * `==` (where `True == 1`);
  * `in` on dicts, lists and strings;
  * `d[k]`, `d.get(k, default)` and `d[k] = v`.

The operating-system name, the current time and the file found on disk are parameters. Subprocesses, prompts, printing and file I/O are not modelled.

Imperative code keeps its shape:
* `remove_fields`, the command builders, the merge and the migration are methods with the source's loops and local updates.
* Each method is proved against the recursive specification functions or the properties it promises.

## Model

| member | source | states |
|---|---|---|
| JsonValue.Truthy | src/jamfmcp/jamfsdk/models/classic/__init__.py:43 | the walrus test `if new_i := ...`: the falsy values are exactly None, False, 0, "", `[]` and `{}` |
| JsonValue.PyEq | src/jamfmcp/jamfsdk/models/classic/__init__.py:35 | Python `==` as used by `v in values_to_remove`: equal values have the same kind (None, string, list, dict; bools with ints), and a value equals `{}` or `[]` exactly when it is that empty container |
| JsonValue.ScalarEqualsItself | src/jamfmcp/jamfsdk/models/classic/__init__.py:35 | every scalar compares equal to itself |
| JsonValue.DictEqualityIgnoresOrder | src/jamfmcp/jamfsdk/models/classic/__init__.py:35 | dict equality ignores insertion order: `{k1: v1, k2: v2} == {k2: v2, k1: v1}` for two distinct keys whose values each compare equal to themselves, as every scalar does; values with duplicate keys inside are not covered |
| JsonValue.PyIn | src/jamfmcp/jamfsdk/models/classic/__init__.py:50 | `x in values_to_remove`: never true of an empty list; when true, some element equals `x` |
| JsonValue.PyInAppend | src/jamfmcp/jamfsdk/models/classic/__init__.py:35 | `x in a + b` holds exactly when `x in a` or `x in b` |
| JsonValue.Get | src/jamfmcp/cli.py:651-652 | `d.get(k)` on a dict finds a value exactly when `k` is a key, and the value is stored under `k` |
| JsonValue.SetPresent | src/jamfmcp/jamfsdk/models/classic/__init__.py:47 | assigning to a key already present replaces its value in place: same keys, same order, other lookups unchanged |
| JsonValue.SetAbsent | src/jamfmcp/jamfsdk/models/classic/__init__.py:47 | assigning to a new key appends it after the existing keys, other lookups unchanged |
| JsonValue.Set | src/jamfmcp/jamfsdk/models/classic/__init__.py:47 | `d[k] = v`: afterwards `k` maps to `v`, every other key maps to what it did; an existing key keeps its place and a new one is appended; distinct keys stay distinct |
| JsonValue.Contains | src/jamfmcp/cli.py:644 | `key in container`: dict key test on a dict; TypeError exactly on None, bools and ints |
| JsonValue.Subscript | src/jamfmcp/cli.py:648 | `container[key]` succeeds exactly on a dict holding the key, yielding its value; KeyError on a dict without it |
| JsonValue.GetOr | src/jamfmcp/cli.py:760 | `.get(key, default)` succeeds exactly on dicts, giving the stored value or the default |
| JsonValue.SetItem | src/jamfmcp/cli.py:159 | item assignment succeeds exactly on dicts (TypeError otherwise), sets the key and leaves every other key alone |
| ClassicExport.EffectiveRemoval | src/jamfmcp/jamfsdk/models/classic/__init__.py:29-30 | no removal list, or an empty one, means `[{}, []]`; a non-empty list is used as given |
| ClassicExport.Prune | src/jamfmcp/jamfsdk/models/classic/__init__.py:21-51 | one pass: a dict comes back a dict; any other value comes back unchanged or as None |
| ClassicExport.PruneValue | src/jamfmcp/jamfsdk/models/classic/__init__.py:37-45 | a kept dict value stays a dict, a list value stays a list, and a scalar is copied unchanged |
| ClassicExport.PruneMembers | src/jamfmcp/jamfsdk/models/classic/__init__.py:33-48 | the rebuilt dict never has more members than the input |
| ClassicExport.PruneItems | src/jamfmcp/jamfsdk/models/classic/__init__.py:40-45 | the new list never has more items than the old one, and every item in it is truthy |
| ClassicExport.RemoveFieldsFromList | src/jamfmcp/jamfsdk/models/classic/__init__.py:40-45 | the inner loop over a list value builds exactly `PruneItems`: each item pruned, kept only when truthy |
| ClassicExport.PruneMembersStep | src/jamfmcp/jamfsdk/models/classic/__init__.py:34-47 | one more member adds nothing when its value is a removal value, and otherwise adds that member with its value pruned |
| ClassicExport.PruneItemsStep | src/jamfmcp/jamfsdk/models/classic/__init__.py:41-44 | one more list item adds its pruned form exactly when that is truthy |
| ClassicExport.RemoveFields | src/jamfmcp/jamfsdk/models/classic/__init__.py:21-51 | the loops compute exactly the one-pass pruning `Prune` with the effective removal list, member by member and item by item |
| ClassicExport.DefaultRemovalMembers | src/jamfmcp/jamfsdk/models/classic/__init__.py:30 | with the default list, a value is a removal value iff it is `{}` or `[]` |
| ClassicExport.PruneMembersAppend | src/jamfmcp/jamfsdk/models/classic/__init__.py:34-47 | dict pruning works member by member: pruning a concatenation concatenates the results, so input order is kept |
| ClassicExport.PruneItemsAppend | src/jamfmcp/jamfsdk/models/classic/__init__.py:40-45 | list pruning works item by item, keeping the survivors' relative order |
| ClassicExport.PruneMembersKeys | src/jamfmcp/jamfsdk/models/classic/__init__.py:33-48 | a pruned dict has no key the input did not have |
| ClassicExport.PruneMembersDistinct | src/jamfmcp/jamfsdk/models/classic/__init__.py:47 | a pruned dict has distinct keys |
| ClassicExport.GetLast | src/jamfmcp/jamfsdk/models/classic/__init__.py:34 | in a dict, the last member is found by its own key and hides no other key |
| ClassicExport.PruneMembersGet | src/jamfmcp/jamfsdk/models/classic/__init__.py:34-47 | a key survives iff its value is not a removal value, and then it holds the pruned value: dicts recursed, lists filtered, scalars copied |
| ClassicExport.DefaultKeepsScalarValues | src/jamfmcp/jamfsdk/models/classic/__init__.py:35-47 | under the default list, None, 0, False, "" and every other scalar dict value is copied unchanged |
| ClassicExport.DefaultDropsEmptyContainers | src/jamfmcp/jamfsdk/models/classic/__init__.py:35-36 | under the default list, keys holding `{}` or `[]` disappear |
| ClassicExport.EmptiedChildKept | src/jamfmcp/jamfsdk/models/classic/__init__.py:35-38 | a nested dict that empties only during pruning is kept as `{}` |
| ClassicExport.SingleRemovedMember | src/jamfmcp/jamfsdk/models/classic/__init__.py:35-36 | a one-member dict whose value is `{}` or `[]` prunes to `{}` |
| ClassicExport.SingleKeptDict | src/jamfmcp/jamfsdk/models/classic/__init__.py:37-38 | a non-empty nested dict is kept and replaced by its pruned form |
| ClassicExport.PruneTwiceRemovesMore | src/jamfmcp/jamfsdk/models/classic/__init__.py:35-45 | the pass is not idempotent: `{a: {b: []}}` prunes to `{a: {}}`, which prunes to `{}` |
| ClassicExport.PruneItemsSound | src/jamfmcp/jamfsdk/models/classic/__init__.py:41-44 | every surviving list item is truthy and is the pruned form of some input item |
| ClassicExport.PruneItemsComplete | src/jamfmcp/jamfsdk/models/classic/__init__.py:41-44 | every input item whose pruned form is truthy survives |
| ClassicExport.NonObjectItem | src/jamfmcp/jamfsdk/models/classic/__init__.py:43-44 | falsy list items (0, "", False, None, []) are dropped; a truthy non-removal scalar or list is kept as is |
| ClassicExport.EmptiedObjectItemDropped | src/jamfmcp/jamfsdk/models/classic/__init__.py:43-44 | a dict item that prunes to `{}` is dropped from its list |
| ClassicExport.TopLevelNonObject | src/jamfmcp/jamfsdk/models/classic/__init__.py:50-51 | a non-dict input equal to a removal value gives None; any other non-dict input is returned as is |
| ClassicExport.TopLevelListUntouched | src/jamfmcp/jamfsdk/models/classic/__init__.py:50-51 | a non-empty top-level list is returned unchanged, not recursed into |
| Digits.Pad | src/jamfmcp/jamfsdk/models/classic/__init__.py:18 | a zero-padded field of exactly the given width, all digits |
| Digits.PadRoundTrip | src/jamfmcp/jamfsdk/models/classic/__init__.py:18 | reading a padded field back gives the number written |
| Digits.PadPrefix | src/jamfmcp/jamfsdk/models/classic/__init__.py:18 | the first digits of a padded number are the padded number with its last digits dropped |
| Digits.DropDigitsBound | src/jamfmcp/jamfsdk/models/classic/__init__.py:18 | dropping `b` digits of a number below 10^(a+b) leaves a number below 10^a |
| JamfIso.FormatOffset | src/jamfmcp/jamfsdk/models/classic/__init__.py:18 | `%z` is empty iff `utcoffset()` is None, otherwise five characters whose sign is `-` iff the offset is negative |
| JamfIso.FormatSeconds | src/jamfmcp/jamfsdk/models/classic/__init__.py:18 | the seconds part is always 19 characters |
| JamfIso.MillisecondsTruncate | src/jamfmcp/jamfsdk/models/classic/__init__.py:18 | cutting three of the six `%f` digits gives the milliseconds truncated, not rounded |
| JamfIso.ConvertDatetimeToJamfIso | src/jamfmcp/jamfsdk/models/classic/__init__.py:10-18 | fails exactly for a naive datetime; otherwise seconds, `.`, truncated milliseconds, then `%z`, 28 characters with an offset and 23 without |
| JamfIso.FieldOfPad | src/jamfmcp/jamfsdk/models/classic/__init__.py:18 | a padded field reads back as its number |
| JamfIso.OffsetRoundTrip | src/jamfmcp/jamfsdk/models/classic/__init__.py:18 | the `%z` text reads back as the offset in minutes |
| JamfIso.SecondsLayout | src/jamfmcp/jamfsdk/models/classic/__init__.py:18 | each field of `Y-M-DTh:m:s` sits at a fixed position between fixed separators |
| JamfIso.FormatSecondsFields | src/jamfmcp/jamfsdk/models/classic/__init__.py:18 | the same positions hold for the strftime output of a datetime |
| JamfIso.StampLayout | src/jamfmcp/jamfsdk/models/classic/__init__.py:18 | the milliseconds follow the seconds after a `.`, then the offset |
| JamfIso.ParseWellFormed | src/jamfmcp/jamfsdk/models/classic/__init__.py:18 | a string with the separators in place and readable fields parses to exactly those fields |
| JamfIso.ConvertRoundTrip | src/jamfmcp/jamfsdk/models/classic/__init__.py:10-18 | reading the result back gives the datetime's every field, its microseconds cut to milliseconds, and its offset |
| CliPlatforms.ToLower | src/jamfmcp/cli.py:61 | `lower()` keeps the length and lowercases exactly the ASCII capitals |
| CliPlatforms.GetPlatformConfigPath | src/jamfmcp/cli.py:55-75 | None for `claude-code`, `gemini-cli`, `mcp-json` and unknown names; the cursor path on any OS; claude-desktop by lowercased OS name, None elsewhere |
| CliPlatforms.ToLowerIdempotent | src/jamfmcp/cli.py:61 | lowercasing twice is lowercasing once |
| CliPlatforms.LookupIgnoresOsCase | src/jamfmcp/cli.py:61-62 | the lookup depends on the OS name only up to case |
| CliPlatforms.CursorPathEverywhere | src/jamfmcp/cli.py:73-75 | cursor gets the same path whatever the OS |
| CliPlatforms.ClaudeDesktopNotOnWindows | src/jamfmcp/cli.py:59-72 | claude-desktop has no path on Windows and the macOS path on Darwin |
| CliConfig.GenerateMcpConfig | src/jamfmcp/cli.py:93-113 | KeyError naming the first missing credential; otherwise one `jamfmcp` server running `uvx` with the fixed five arguments and an env of URL, auth type and the two credentials of that auth type |
| CliConfig.NormalizeUrl | src/jamfmcp/cli.py:499-501 | the result starts with `http://` or `https://`; a URL with either is unchanged, any other gets `https://` prepended |
| CliConfig.NormalizeUrlIdempotent | src/jamfmcp/cli.py:499-501 | normalising twice is normalising once |
| CliConfig.NormalizedUrlNonEmpty | src/jamfmcp/cli.py:499-501 | a normalised URL is never empty |
| CliConfig.SetupCredentials | src/jamfmcp/cli.py:504-516 | `setup` supplies exactly the two credentials its auth type needs |
| CliConfig.SetupConfig | src/jamfmcp/cli.py:534 | the configuration `setup` generates is always produced, with one `jamfmcp` server whose env holds the normalised URL, the auth type and exactly the credentials entered for that auth type |
| CliConfig.SetupNeverMissesCredential | src/jamfmcp/cli.py:504-534 | the configuration `setup` generates never raises KeyError |
| CliConfig.EnvGetIsGet | src/jamfmcp/cli.py:105-113 | a lookup in the typed env block and in the dict written for it give the same string |
| CliConfig.EnvJson | src/jamfmcp/cli.py:105-113 | the env block is written as a dict of strings in its order |
| CliConfig.ServersJson | src/jamfmcp/cli.py:105-113 | each server is written under its name, in order |
| CliConfig.ConfiguredServer | src/jamfmcp/cli.py:644-648 | the JamfMCP entry is found exactly when the document is a dict whose dict `mcpServers` has the key; an absent `mcpServers` means not configured |
| CliConfig.StoredConnection | src/jamfmcp/cli.py:650-661 | fails exactly on a non-dict env; nothing to test when `JAMF_URL` is falsy; auth type defaults to `basic`, missing credentials to `""` |
| CliConfig.ValidateEnv | src/jamfmcp/cli.py:649-650 | `validate` reads the env block only when the entry has one |
| CliConfig.DoctorEnv | src/jamfmcp/cli.py:760 | `doctor` reads the env block or `{}`, and fails exactly on non-dict entries |
| CliConfig.ValidateConnection | src/jamfmcp/cli.py:649-661 | no connection when the entry has no `env`; an error exactly when its `env` is not a dict; a connection only from a dict entry with a truthy URL |
| CliConfig.DoctorConnection | src/jamfmcp/cli.py:755-773 | an error exactly for a non-dict entry or a non-dict `env`; a connection only from an entry with an `env` holding a truthy URL |
| CliConfig.ValidateAndDoctorAgree | src/jamfmcp/cli.py:755-773 | on any dict entry, `validate` and `doctor` extract the same connection |
| CliConfig.GetAt | src/jamfmcp/cli.py:651-661 | in a dict, every member is found by its key |
| CliConfig.StoredConnectionAfterGenerate | src/jamfmcp/cli.py:650-661 | extracting from the generated env gives back the URL, auth type and credentials, or nothing for an empty URL |
| CliConfig.SetupRoundTrip | src/jamfmcp/cli.py:499-534 | after `setup`, the stored entry reads back with the normalised URL and exactly the credentials entered |
| CliCommands.EnvFlags | src/jamfmcp/cli.py:189-190 | two flag words per environment variable |
| CliCommands.JamfServer | src/jamfmcp/cli.py:181 | the JamfMCP entry of a configuration, KeyError exactly when absent |
| CliCommands.BuildClaudeCommand | src/jamfmcp/cli.py:181-195 | the loop builds exactly the Claude Code argument vector, or KeyError |
| CliCommands.BuildGeminiCommand | src/jamfmcp/cli.py:224-239 | the loop builds exactly the Gemini CLI argument vector, or KeyError |
| CliCommands.EnvFlagsLayout | src/jamfmcp/cli.py:189-190 | variable `i` becomes `-e` at position 2i and `KEY=VALUE` at 2i+1 |
| CliCommands.ClaudeArgvLayout | src/jamfmcp/cli.py:181-195 | `claude mcp add jamfmcp`, the flags in env order, the command, the args; length 5 + 2·\|env\| + \|args\| |
| CliCommands.GeminiIsClaudeWithSeparator | src/jamfmcp/cli.py:224-239 | the Gemini vector is the Claude vector with `gemini` first and `--` before the command |
| CliCommands.CommandsFailTogether | src/jamfmcp/cli.py:224 | both builders fail together, exactly when the configuration has no JamfMCP entry |
| CliCommands.FirstEq | src/jamfmcp/cli.py:190 | the first `=` of a string, if any |
| CliCommands.FirstEqAfterKey | src/jamfmcp/cli.py:190 | in `KEY=VALUE` with no `=` in the key, the first `=` follows the key |
| CliCommands.SplitAssignmentRoundTrip | src/jamfmcp/cli.py:190 | splitting `KEY=VALUE` at its first `=` gives back key and value |
| CliCommands.EnvFlagsRoundTrip | src/jamfmcp/cli.py:189-190 | when no variable name contains `=`, the flags decode back to the env, pair by pair, in order |
| CliCommands.UvxEntryCommand | src/jamfmcp/cli.py:181-195 | for a uvx entry, the vector has 18 words, passes URL and auth type first and ends with `uvx` and its arguments |
| CliCommands.GeneratedClaudeCommand | src/jamfmcp/cli.py:181-195 | for a generated configuration, Claude Code receives all four variables and runs `uvx` with the JamfMCP arguments |
| CliMerge.LoadedConfig | src/jamfmcp/cli.py:144-155 | a missing or unparseable file counts as `{}`; a parsed one as its content |
| CliMerge.LastValue | src/jamfmcp/cli.py:160 | the value `update` takes for a key: defined exactly for the keys of the other dict |
| CliMerge.UpdateMembers | src/jamfmcp/cli.py:160 | `d.update(other)` keeps every key of `d` and adds at most one member per member of `other`; which values change is stated by `UpdateGet` |
| CliMerge.LastValueIsGet | src/jamfmcp/cli.py:160 | for a dict with distinct keys, the value `update` takes for a key is the value stored under it |
| CliMerge.UpdateGetDict | src/jamfmcp/cli.py:160 | after `d.update(other)`, a key holds `other[k]` if `other` has it, and `d[k]` otherwise |
| CliMerge.LookupServerIsLastValue | src/jamfmcp/cli.py:160 | looking a server up in the typed configuration and in the `mcpServers` object written for it gives the same entry |
| CliMerge.UpdateGet | src/jamfmcp/cli.py:160 | after `update`, a key holds the other dict's value if it has one, else its old value |
| CliMerge.UpdateDistinct | src/jamfmcp/cli.py:160 | `update` never duplicates a key |
| CliMerge.UpdateKeepsOrder | src/jamfmcp/cli.py:160 | `update` keeps the existing keys in place, new ones after them |
| CliMerge.UpdateKeySet | src/jamfmcp/cli.py:160 | after `update`, the keys are exactly those of either dict |
| CliMerge.ExistingServers | src/jamfmcp/cli.py:158-160 | the servers already present, or none when `mcpServers` is absent |
| CliMerge.MergeServerConfig | src/jamfmcp/cli.py:144-160 | fails exactly on a non-dict document (TypeError) or a non-dict `mcpServers` (AttributeError); otherwise `mcpServers` is the old servers updated with the new, every other top-level key is unchanged, and `mcpServers` is appended only if it was missing |
| CliMerge.InstallGeneratedServer | src/jamfmcp/cli.py:160 | merging a generated configuration makes the `jamfmcp` entry the generated one and leaves every other server, and the servers' order, unchanged |
| CliMerge.WritePlatformConfig | src/jamfmcp/cli.py:115-169 | CLI platforms get their command, `mcp-json` the printed entry, unknown or unsupported ones nothing; a file platform gets a written document exactly when the merge can succeed: at the platform's path, backed up iff the file existed, with `mcpServers` updated by the new servers, every other top-level key unchanged and the key order kept (`mcpServers` appended only when missing); otherwise TypeError for a non-dict document, AttributeError for a non-dict `mcpServers` |
| CliBackup.LastDot | src/jamfmcp/cli.py:340 | the index of the last `.`, none iff there is no dot |
| CliBackup.SuffixStart | src/jamfmcp/cli.py:340 | pathlib splits at the last dot unless it is first or last |
| CliBackup.Suffix | src/jamfmcp/cli.py:340 | a suffix is empty or one dot followed by at least one dot-free character |
| CliBackup.Stem | src/jamfmcp/cli.py:340 | `path.stem` is a prefix of the name, and is not empty for a non-empty name |
| CliBackup.StemSuffixSplit | src/jamfmcp/cli.py:340 | stem followed by suffix is the name |
| CliBackup.BackupTimestamp | src/jamfmcp/cli.py:339 | `%Y%m%d_%H%M%S` is 15 characters, digits around a `_` at position 8 |
| CliBackup.TimestampHasNoDot | src/jamfmcp/cli.py:339 | the timestamp contains no dot |
| CliBackup.BackupPath | src/jamfmcp/cli.py:339-340 | the backup lies in the same directory and its name is 23 characters longer |
| CliBackup.BackupIsAnotherFile | src/jamfmcp/cli.py:339-341 | the backup never has the original's path |
| CliBackup.BackupKeepsSuffix | src/jamfmcp/cli.py:340 | a suffix is kept, and the new stem is the old stem plus `.backup.<timestamp>` |
| CliBackup.LastDotIs | src/jamfmcp/cli.py:340 | a dot with no dot after it is the last dot |
| CliBackup.BackupWithoutSuffix | src/jamfmcp/cli.py:340 | a name without suffix becomes `<name>.backup.<timestamp>` |
| CliBackup.SplitAtExtension | src/jamfmcp/cli.py:340 | `<stem>.<ext>` splits into that stem and `.<ext>` |
| CliBackup.BackupOfStemAndExtension | src/jamfmcp/cli.py:339-340 | `config.json` is backed up beside it as `config.backup.<timestamp>.json` |
| CliUpdate.PythonCommandTest | src/jamfmcp/cli.py:919 | only the string `python` compares equal to `"python"` |
| CliUpdate.RewriteEntry | src/jamfmcp/cli.py:922-934 | the three assignments give command `uv`, the six `uv` arguments and the old env (or `{}`), and leave every other key |
| CliUpdate.ReplaceServer | src/jamfmcp/cli.py:937-941 | replacing the entry changes no other server, no other top-level key and no key order |
| CliUpdate.MigrateConfig | src/jamfmcp/cli.py:914-941 | an entry using `python` is rewritten as above and nothing else in the document changes; any other entry, or none, means no write; fails on a None, bool or int document, on a list or string document containing `mcpServers`, on a None, bool or int `mcpServers`, on a list or string `mcpServers` containing `jamfmcp`, and on a non-dict entry; any other document without a JamfMCP entry is left unchanged |
| CliUpdate.ConfiguredServerOf | src/jamfmcp/cli.py:914-915 | a dict `mcpServers` holding `jamfmcp` yields that entry |
| CliUpdate.MigrationSettles | src/jamfmcp/cli.py:914-941 | a migrated document no longer uses `python`, so a second run writes nothing |

## Left out

- Everything outside the two core files is not part of this model. That covers:
  - the MCP tools of `src/jamfmcp/server.py`;
  - the health and security analyzer;
  - the pydantic record classes;
  - `ClassicApiModel.xml`, which only calls a serializer.
- I/O is not modelled. This covers the file system (open, mkdir, copy), subprocesses, prompts and `getpass`, keyrings, printing, and the PyPI and Jamf connection checks. Their outcomes are parameters or results: `ExistingFile`, `WriteOutcome`, `Migration`.
- The `print` in `remove_fields` is a side effect only and is left out.
- `Path.expanduser` is not applied: paths are kept as written, with `~`.
- `platform.system()` and `datetime.now()` are parameters.
- The list of platforms `update` visits (`detect_installed_platforms`) is not modelled. `MigrateConfig` is one visit.
- Values that `Json` cannot hold are not modelled:
  - `remove_fields` also sees `datetime` values and, through extra fields, arbitrary objects in `model_dump()` output, such as floats, tuples, sets and decimals. It treats them as scalars that are not removal values, and never recurses into them (a tuple included). As a dict value such an object is copied unchanged. As a list item it is kept only when truthy, so `0.0`, `()`, `set()` or `Decimal(0)` is dropped.
  - `json.load` can also return floats in the documents read by the merge, `validate`, `doctor` and `update`. A float behaves like an int there: `0.0` is falsy and `1.0 == True`.
- A dict is modelled as its member sequence with distinct keys, as `json.load` produces. Python's in-place mutation of nested dicts becomes a value that is rebuilt.
- ClassicExport.RemoveFields: `values_to_remove` is modelled as a list (any other iterable is not), and its default is applied by `EffectiveRemoval`.
- JamfIso.ConvertDatetimeToJamfIso: covers years 1000-9999 and offsets in whole minutes within a day. Years below 1000 are padded differently by some platforms' strftime, and second-level offsets add digits to `%z`.
- CliPlatforms.ToLower: lowercases ASCII letters only; `str.lower` on other Unicode letters is not modelled.
- CliCommands.BuildClaudeCommand: takes the typed configuration `generate_mcp_config` returns. Non-string values in the env dict are not modelled.
- CliCommands.BuildGeminiCommand: same as `BuildClaudeCommand`.
- CliConfig.StoredConnection: models `doctor` computing the auth type and credentials always, though it does so only with `--verbose`. The values are the same when it does.
- CliMerge.WritePlatformConfig: a `Raised` outcome does not record that the backup copy had already been made.
- CliMerge.UpdateMembers: when `config["mcpServers"]` repeats a name, the last value wins, as building the dict would have done.
