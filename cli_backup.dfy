/**
 * The name of the copy `backup_existing_config` (src/jamfmcp/cli.py) makes before a
 * configuration file is rewritten: `<parent>/<stem>.backup.<timestamp><suffix>`, with
 * pathlib's `stem` and `suffix` and a `%Y%m%d_%H%M%S` timestamp of the current time,
 * which is a parameter here. Copying the file is not modelled.
 */
module CliBackup {
  import opened Wrappers
  import opened Digits
  import opened JamfIso

  /** A file path split into its parent directory and its final component. */
  datatype FilePath = FilePath(parent: string, name: string)

  /** `str.rfind('.')`: the index of the last dot, if any. */
  function LastDot(s: string): (r: Option<nat>)
    ensures r.None? <==> '.' !in s
    ensures r.Some? ==> r.value < |s| && s[r.value] == '.' && '.' !in s[r.value + 1..]
  {
    if s == [] then None
    else if s[|s| - 1] == '.' then Some(|s| - 1)
    else
      var r := LastDot(s[..|s| - 1]);
      if r.Some? then
        assert s[r.value + 1..] == s[..|s| - 1][r.value + 1..] + [s[|s| - 1]];
        r
      else
        assert s == s[..|s| - 1] + [s[|s| - 1]];
        r
  }

  /** Where pathlib splits a name: at its last dot, unless that dot is first or last. */
  function SuffixStart(name: string): (r: Option<nat>)
    ensures r.Some? ==> 0 < r.value < |name| - 1 && name[r.value] == '.' && '.' !in name[r.value + 1..]
    ensures r.None? ==> '.' !in name || LastDot(name).value == 0 || LastDot(name).value == |name| - 1
  {
    match LastDot(name)
    case Some(i) => if 0 < i < |name| - 1 then Some(i) else None
    case None => None
  }

  /** `PurePath.suffix`. */
  function Suffix(name: string): (r: string)
    ensures r == "" || (r[0] == '.' && '.' !in r[1..] && |r| >= 2)
  {
    match SuffixStart(name)
    case Some(i) => name[i..]
    case None => ""
  }

  /** `PurePath.stem`. */
  function Stem(name: string): (s: string)
    ensures s <= name
    ensures name != "" ==> s != ""
  {
    match SuffixStart(name)
    case Some(i) => name[..i]
    case None => name
  }

  /** A name is its stem followed by its suffix. */
  lemma StemSuffixSplit(name: string)
    ensures Stem(name) + Suffix(name) == name
  {
  }

  /** `strftime("%Y%m%d_%H%M%S")`. */
  function BackupTimestamp(now: DateTime): (ts: string)
    requires ValidDateTime(now)
    ensures |ts| == 15 && ts[8] == '_'
    ensures forall i :: 0 <= i < |ts| && i != 8 ==> IsDigit(ts[i])
  {
    Pad(now.year, 4) + Pad(now.month, 2) + Pad(now.day, 2) + "_"
      + Pad(now.hour, 2) + Pad(now.minute, 2) + Pad(now.second, 2)
  }

  /** The timestamp has no dot, so it cannot move where pathlib splits the backup's name. */
  lemma TimestampHasNoDot(now: DateTime)
    requires ValidDateTime(now)
    ensures '.' !in BackupTimestamp(now)
  {
    var ts := BackupTimestamp(now);
    forall i | 0 <= i < |ts|
      ensures ts[i] != '.'
    {
      if i != 8 {
        assert IsDigit(ts[i]);
      }
    }
  }

  function BackupName(name: string, ts: string): string
  {
    Stem(name) + ".backup." + ts + Suffix(name)
  }

  /** The backup path: beside the original, named `<stem>.backup.<timestamp><suffix>`. */
  function BackupPath(path: FilePath, now: DateTime): (b: FilePath)
    requires ValidDateTime(now)
    ensures b.parent == path.parent
    ensures |b.name| == |path.name| + 23
  {
    StemSuffixSplit(path.name);
    FilePath(path.parent, BackupName(path.name, BackupTimestamp(now)))
  }

  /** The backup never has the original's name, so copying cannot overwrite the original. */
  lemma BackupIsAnotherFile(path: FilePath, now: DateTime)
    requires ValidDateTime(now)
    ensures BackupPath(path, now) != path
  {
  }

  /**
   * When the original has a suffix, the backup keeps it (so `config.json` still ends in
   * `.json`), and its stem is the original stem with `.backup.<timestamp>` added.
   */
  lemma {:induction false} BackupKeepsSuffix(path: FilePath, now: DateTime)
    requires ValidDateTime(now) && Suffix(path.name) != ""
    ensures Suffix(BackupPath(path, now).name) == Suffix(path.name)
    ensures Stem(BackupPath(path, now).name) == Stem(path.name) + ".backup." + BackupTimestamp(now)
  {
    var ts := BackupTimestamp(now);
    TimestampHasNoDot(now);
    var suf := Suffix(path.name);
    var head := Stem(path.name) + ".backup." + ts;
    var b := head + suf;
    assert b == BackupPath(path, now).name;
    assert head[|head| - |ts| - 1] == '.';
    assert head[|head| - |ts|..] == ts;
    assert b[|head|] == '.';
    assert b[|head| + 1..] == suf[1..];
    assert LastDot(b) == Some(|head|) by {
      LastDotIs(b, |head|);
    }
    assert b[..|head|] == head && b[|head|..] == suf;
  }

  /** A dot at `i` with no dot after it is the last dot. */
  lemma {:induction false} LastDotIs(s: string, i: nat)
    requires i < |s| && s[i] == '.' && '.' !in s[i + 1..]
    ensures LastDot(s) == Some(i)
    decreases |s|
  {
    if i < |s| - 1 {
      var init := s[..|s| - 1];
      assert s[|s| - 1] == s[i + 1..][|s| - i - 2];
      assert init[i + 1..] == s[i + 1..][..|s| - i - 2];
      LastDotIs(init, i);
    }
  }

  /** Without a suffix the whole name is the stem: `.env` and `Makefile` become `<name>.backup.<timestamp>`. */
  lemma BackupWithoutSuffix(path: FilePath, now: DateTime)
    requires ValidDateTime(now) && Suffix(path.name) == ""
    ensures BackupPath(path, now).name == path.name + ".backup." + BackupTimestamp(now)
  {
  }

  /** pathlib splits `<stem>.<ext>` at the dot before the extension, whatever dots the stem holds. */
  lemma SplitAtExtension(name: string, stem: string, ext: string)
    requires name == stem + "." + ext && stem != "" && ext != "" && '.' !in ext
    ensures Stem(name) == stem && Suffix(name) == "." + ext
  {
    assert SuffixStart(name) == Some(|stem|) by {
      assert name[|stem|] == '.' && name[|stem| + 1..] == ext;
      LastDotIs(name, |stem|);
    }
    assert name[..|stem|] == stem && name[|stem|..] == "." + ext;
  }

  /**
   * The documented case: `config.json` (or any `<stem>.<ext>`) is backed up beside it as
   * `config.backup.<timestamp>.json`.
   */
  lemma BackupOfStemAndExtension(path: FilePath, now: DateTime, stem: string, ext: string)
    requires path.name == stem + "." + ext && stem != "" && ext != "" && '.' !in ext
    requires ValidDateTime(now)
    ensures BackupPath(path, now) == FilePath(path.parent, stem + ".backup." + BackupTimestamp(now) + "." + ext)
  {
    SplitAtExtension(path.name, stem, ext);
  }
}
