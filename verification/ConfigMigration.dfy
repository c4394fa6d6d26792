/** The script that reads a v1 .env file, renames and removes keys, and writes
    the v2 file. */
module ConfigMigration {
  import opened Sequences
  import opened JsText

  type Config = map<string, string>

  // ----- the schemas

  const V1_REQUIRED: seq<string> :=
    ["STELLAR_RPC_URL", "STELLAR_NETWORK", "STELLAR_NETWORK_PASSPHRASE", "CONTRACT_ADDRESSES", "LOG_LEVEL"]

  const V2_REQUIRED: seq<string> :=
    ["STELLAR_RPC_ENDPOINT", "STELLAR_NETWORK", "STELLAR_NETWORK_PASSPHRASE", "CONTRACT_ADDRESSES", "LOG_LEVEL"]

  type Renames = seq<(string, string)>

  const V2_RENAMES: Renames :=
    [("DB_HOST", "DATABASE_HOST"), ("DB_PORT", "DATABASE_PORT"), ("DB_USER", "DATABASE_USER"),
     ("DB_PASS", "DATABASE_PASSWORD"), ("DB_NAME", "DATABASE_NAME"), ("NOTIFY_ENDPOINT", "NOTIFICATION_ENDPOINT"),
     ("RETRY_COUNT", "MAX_RETRY_ATTEMPTS"), ("EVENT_FILTER", "CONTRACT_EVENT_FILTER"),
     ("STELLAR_RPC_URL", "STELLAR_RPC_ENDPOINT"), ("DISCORD_WEBHOOK_ID", "DISCORD_WEBHOOK_CHANNEL_ID")]

  const V2_REMOVED: seq<string> := ["VITE_STELLAR_NETWORK"]

  const SCRIPT := "migrate-config.js"

  /** The comment the written file starts with. */
  function Heading(): (line: string)
    ensures line != "" && line[0] == '#' && '\n' !in line
  {
    "# Migrated from v1 to v2 by " + SCRIPT
  }

  /** Assigning text to this name of an object stores nothing. */
  const UNSTORED := "__proto__"

  // ----- reading and writing

  function SplitLines(content: string): (lines: seq<string>)
    ensures lines != []
  {
    if content == "" then [""]
    else
      var rest := SplitLines(content[1..]);
      if content[0] == '\n' then [""] + rest else [[content[0]] + rest[0]] + rest[1..]
  }

  /** Where the first '=' is, or the length when there is none. */
  function EqualsAt(line: string): (i: nat)
    ensures i <= |line| && (i < |line| ==> line[i] == '=')
  {
    if line == "" || line[0] == '=' then 0 else 1 + EqualsAt(line[1..])
  }

  function ParseLine(rawLine: string): Option<(string, string)> {
    var line := Trim(rawLine);
    if line == "" || line[0] == '#' || EqualsAt(line) == |line| then None
    else
      var key, value := Trim(line[..EqualsAt(line)]), Trim(line[EqualsAt(line) + 1..]);
      if key == "" then None else Some((key, value))
  }

  function WithLine(config: Config, rawLine: string): Config {
    var parsed := ParseLine(rawLine);
    if parsed.Some? && parsed.value.0 != UNSTORED then config[parsed.value.0 := parsed.value.1] else config
  }

  function ParsedLines(lines: seq<string>): Config {
    if lines == [] then map[] else WithLine(ParsedLines(lines[..|lines| - 1]), lines[|lines| - 1])
  }

  function Parsed(content: string): Config {
    ParsedLines(SplitLines(content))
  }

  lemma {:induction false} ParsedNext(lines: seq<string>, i: nat)
    requires i < |lines|
    ensures ParsedLines(lines[..i + 1]) == WithLine(ParsedLines(lines[..i]), lines[i])
  {
    assert lines[..i + 1][..i] == lines[..i];
  }

  method ParseEnvFile(content: string) returns (result: Config)
    ensures result == Parsed(content)
  {
    assert ParsedLines([]) == map[];
    hide ParsedLines, Trim, EqualsAt, SplitLines;
    result := map[];
    var lines := SplitLines(content);
    assert lines[..0] == [];
    for i := 0 to |lines|
      invariant result == ParsedLines(lines[..i])
    {
      var line := Trim(lines[i]);
      if line != "" && line[0] != '#' {
        var eqIdx := EqualsAt(line);
        if eqIdx < |line| {
          var key, value := Trim(line[..eqIdx]), Trim(line[eqIdx + 1..]);
          if key != "" && key != UNSTORED {
            result := result[key := value];
          }
        }
      }
      ParsedNext(lines, i);
    }
    assert lines[..|lines|] == lines;
  }

  function EntryLine(entry: (string, string)): string {
    entry.0 + "=" + entry.1
  }

  function Lines(entries: seq<(string, string)>): seq<string> {
    [Heading(), ""] + Map(EntryLine, entries) + [""]
  }

  method SerializeEnv(entries: seq<(string, string)>) returns (text: string)
    ensures text == Join(Lines(entries), "\n")
  {
    var lines := [Heading(), ""];
    for i := 0 to |entries|
      invariant lines == [Heading(), ""] + Map(EntryLine, entries[..i])
    {
      lines := lines + [entries[i].0 + "=" + entries[i].1];
      assert entries[..i + 1] == entries[..i] + [entries[i]];
      MapConcat(EntryLine, entries[..i], [entries[i]]);
    }
    assert entries[..|entries|] == entries;
    lines := lines + [""];
    text := Join(lines, "\n");
  }

  /** The written file has a comment, a blank line, each entry's key and value around a '=' in the
      order given, and a line break at its end. */
  lemma {:induction false} WrittenLines(entries: seq<(string, string)>)
    ensures var lines := Lines(entries);
      && |lines| == |entries| + 3 && lines[0] != "" && lines[0][0] == '#' && lines[1] == "" && lines[|lines| - 1] == ""
      && forall i :: 0 <= i < |entries| ==> lines[i + 2] == entries[i].0 + "=" + entries[i].1
  {
    hide Heading;
  }

  // ----- what a parsed file can hold

  predicate IsKey(key: string) {
    key != "" && key != UNSTORED && Trimmed(key) && key[0] != '#' && '=' !in key && '\n' !in key
  }

  predicate IsValue(value: string) {
    Trimmed(value) && '\n' !in value
  }

  ghost predicate Writable(config: Config) {
    forall key :: key in config ==> IsKey(key) && IsValue(config[key])
  }

  lemma {:induction false} TrimIsSlice(s: string)
    ensures Trimmed(Trim(s)) && forall c :: c in Trim(s) ==> c in s
    ensures Trimmed(s) ==> Trim(s) == s
  {
    hide IsSpace;
    TrimStartIsSlice(s);
    TrimEndIsSlice(TrimStart(s));
  }

  lemma {:induction false} TrimStartIsSlice(s: string)
    ensures TrimStart(s) != "" ==> !IsSpace(TrimStart(s)[0])
    ensures forall c :: c in TrimStart(s) ==> c in s
  {
    if s != "" && IsSpace(s[0]) { TrimStartIsSlice(s[1..]); }
  }

  lemma {:induction false} TrimEndIsSlice(s: string)
    ensures TrimEnd(s) != "" ==> !IsSpace(TrimEnd(s)[|TrimEnd(s)| - 1]) && s != "" && TrimEnd(s)[0] == s[0]
    ensures forall c :: c in TrimEnd(s) ==> c in s
  {
    if s != "" && IsSpace(s[|s| - 1]) { TrimEndIsSlice(s[..|s| - 1]); }
  }

  lemma {:induction false} EqualsIsFirst(line: string)
    ensures '=' !in line[..EqualsAt(line)]
  {
    if line != "" && line[0] != '=' {
      EqualsIsFirst(line[1..]);
      assert line[..EqualsAt(line)] == [line[0]] + line[1..][..EqualsAt(line[1..])];
    }
  }

  lemma {:induction false} FirstKept(s: string)
    ensures Trim(s) != "" && !IsSpace(s[0]) ==> s != "" && Trim(s)[0] == s[0]
  {
    if s != "" && !IsSpace(s[0]) {
      TrimStartKeeps(s);
      TrimEndIsSlice(s);
    }
  }

  lemma {:induction false} ParsedLineWritable(rawLine: string)
    requires '\n' !in rawLine && ParseLine(rawLine).Some? && ParseLine(rawLine).value.0 != UNSTORED
    ensures IsKey(ParseLine(rawLine).value.0) && IsValue(ParseLine(rawLine).value.1)
  {
    hide Trim, IsSpace, EqualsAt;
    var line := Trim(rawLine);
    TrimIsSlice(rawLine);
    EqualsIsFirst(line);
    var before, after := line[..EqualsAt(line)], line[EqualsAt(line) + 1..];
    TrimIsSlice(before);
    TrimIsSlice(after);
    FirstKept(before);
  }

  lemma {:induction false} TrimStartKeeps(s: string)
    requires s != "" && !IsSpace(s[0])
    ensures Trim(s) == TrimEnd(s)
  {
  }

  lemma {:induction false} SplitHasNoBreaks(content: string)
    ensures forall i :: 0 <= i < |SplitLines(content)| ==> '\n' !in SplitLines(content)[i]
  {
    if content != "" { SplitHasNoBreaks(content[1..]); }
  }

  lemma {:induction false} ParsedLinesWritable(lines: seq<string>)
    requires forall i :: 0 <= i < |lines| ==> '\n' !in lines[i]
    ensures Writable(ParsedLines(lines))
  {
    if lines != [] {
      var last := lines[|lines| - 1];
      ParsedLinesWritable(lines[..|lines| - 1]);
      if ParseLine(last).Some? && ParseLine(last).value.0 != UNSTORED { ParsedLineWritable(last); }
    }
  }

  // ----- the round trip

  lemma {:induction false} SplitJoin(lines: seq<string>)
    requires lines != [] && forall i :: 0 <= i < |lines| ==> '\n' !in lines[i]
    ensures SplitLines(Join(lines, "\n")) == lines
    decreases |lines|
  {
    if |lines| == 1 {
      SplitLine(lines[0], "");
      assert lines[0] + "" == lines[0] && lines == [lines[0]];
    } else {
      SplitJoin(lines[1..]);
      SplitLine(lines[0], "\n" + Join(lines[1..], "\n"));
      assert Join(lines, "\n") == lines[0] + ("\n" + Join(lines[1..], "\n"));
      assert ("\n" + Join(lines[1..], "\n"))[1..] == Join(lines[1..], "\n");
    }
  }

  lemma {:induction false} SplitLine(line: string, rest: string)
    requires '\n' !in line && (rest == "" || rest[0] == '\n')
    ensures SplitLines(line + rest) == [line] + if rest == "" then [] else SplitLines(rest[1..])
  {
    if line == "" {
      assert line + rest == rest;
    } else {
      assert (line + rest)[1..] == line[1..] + rest && line[0] in line;
      SplitLine(line[1..], rest);
      assert [line[0]] + line[1..] == line;
    }
  }

  lemma {:induction false} EntryLineReadsBack(key: string, value: string)
    requires IsKey(key) && IsValue(value)
    ensures '\n' !in EntryLine((key, value)) && ParseLine(EntryLine((key, value))) == Some((key, value))
  {
    var line := EntryLine((key, value));
    assert line[0] == key[0] && line[|line| - 1] == if value == "" then '=' else value[|value| - 1];
    TrimIsSlice(line);
    EqualsAfter(key, "=" + value);
    assert line == key + ("=" + value);
    assert line[..|key|] == key && line[|key| + 1..] == value;
    TrimIsSlice(key);
    TrimIsSlice(value);
  }

  lemma {:induction false} EqualsAfter(key: string, rest: string)
    requires '=' !in key && rest != "" && rest[0] == '='
    ensures EqualsAt(key + rest) == |key|
  {
    if key == "" {
      assert key + rest == rest;
    } else {
      assert (key + rest)[0] == key[0] && (key + rest)[1..] == key[1..] + rest;
      EqualsAfter(key[1..], rest);
    }
  }

  /** The entries list the configuration, each key once, in whatever order. */
  ghost predicate Lists(entries: seq<(string, string)>, config: Config) {
    && (forall i, j :: 0 <= i < j < |entries| ==> entries[i].0 != entries[j].0)
    && (forall i :: 0 <= i < |entries| ==> entries[i].0 in config && config[entries[i].0] == entries[i].1)
    && (forall key :: key in config ==> exists i :: 0 <= i < |entries| && entries[i].0 == key)
  }

  /** The configuration a list of entries builds up, later ones winning. */
  function Gathered(entries: seq<(string, string)>): Config {
    if entries == [] then map[]
    else Gathered(entries[..|entries| - 1])[entries[|entries| - 1].0 := entries[|entries| - 1].1]
  }

  lemma {:induction false} ListedIsGathered(entries: seq<(string, string)>, config: Config)
    requires Lists(entries, config)
    ensures Gathered(entries) == config
  {
    if entries == [] {
      assert config == map[];
    } else {
      var (key, value) := entries[|entries| - 1];
      var init := entries[..|entries| - 1];
      forall k | k in config - {key}
        ensures exists i :: 0 <= i < |init| && init[i].0 == k
      {
        var i :| 0 <= i < |entries| && entries[i].0 == k;
        assert init[i].0 == k;
      }
      ListedIsGathered(init, config - {key});
      assert (config - {key})[key := value] == config;
    }
  }

  lemma {:induction false} GatheredReadsBack(entries: seq<(string, string)>)
    requires forall i :: 0 <= i < |entries| ==> IsKey(entries[i].0) && IsValue(entries[i].1)
    ensures ParsedLines([Heading(), ""] + Map(EntryLine, entries)) == Gathered(entries)
  {
    var head := [Heading(), ""];
    var lines := head + Map(EntryLine, entries);
    if entries == [] {
      HeadReadsEmpty();
      assert lines == head;
    } else {
      var last, init := entries[|entries| - 1], entries[..|entries| - 1];
      GatheredReadsBack(init);
      EntryLineReadsBack(last.0, last.1);
      assert lines[..|lines| - 1] == head + Map(EntryLine, init);
      assert lines[|lines| - 1] == EntryLine(last);
    }
  }

  lemma {:induction false} TrimEndKeepsFirst(s: string)
    requires s != "" && !IsSpace(s[0])
    ensures TrimEnd(s) != "" && TrimEnd(s)[0] == s[0]
  {
    if IsSpace(s[|s| - 1]) { TrimEndKeepsFirst(s[..|s| - 1]); }
  }

  lemma {:induction false} CommentIgnored(line: string)
    requires line != "" && line[0] == '#'
    ensures ParseLine(line).None?
  {
    TrimStartKeeps(line);
    TrimEndKeepsFirst(line);
  }

  lemma {:induction false} HeadReadsEmpty()
    ensures ParsedLines([Heading(), ""]) == map[]
    ensures ParseLine("").None? && '\n' !in Heading()
  {
    hide Heading;
    CommentIgnored(Heading());
    assert ParseLine("").None?;
    hide ParseLine;
    assert [Heading(), ""][..1] == [Heading()] && [Heading()][..0] == [];
    assert ParsedLines([Heading()]) == WithLine(ParsedLines([]), Heading());
  }

  lemma {:induction false} LinesUnbroken(entries: seq<(string, string)>)
    requires forall i :: 0 <= i < |entries| ==> IsKey(entries[i].0) && IsValue(entries[i].1)
    ensures forall i :: 0 <= i < |Lines(entries)| ==> '\n' !in Lines(entries)[i]
  {
    hide Heading, IsKey, IsValue;
    forall i | 0 <= i < |entries|
      ensures '\n' !in EntryLine(entries[i])
    {
      EntryLineReadsBack(entries[i].0, entries[i].1);
    }
  }

  /** Reading back what was written, in any order of its entries, gives the configuration. */
  lemma {:induction false} WrittenReadsBack(entries: seq<(string, string)>, config: Config)
    requires Writable(config) && Lists(entries, config)
    ensures Parsed(Join(Lines(entries), "\n")) == config
  {
    hide Heading, Join, IsKey, IsValue, SplitLines;
    var lines := Lines(entries);
    HeadReadsEmpty();
    LinesUnbroken(entries);
    SplitJoin(lines);
    GatheredReadsBack(entries);
    ListedIsGathered(entries, config);
    assert lines[..|lines| - 1] == [Heading(), ""] + Map(EntryLine, entries);
  }

  lemma {:induction false} AppendLists(entries: seq<(string, string)>, config: Config, key: string, value: string)
    requires Lists(entries, config) && key !in config
    ensures Lists(entries + [(key, value)], config[key := value])
  {
    var all, grown := entries + [(key, value)], config[key := value];
    forall k | k in grown
      ensures exists i :: 0 <= i < |all| && all[i].0 == k
    {
      if k == key {
        assert all[|entries|].0 == k;
      } else {
        var i :| 0 <= i < |entries| && entries[i].0 == k;
        assert all[i].0 == k;
      }
    }
  }

  lemma {:induction false} EmptyListed()
    ensures Lists([], map[])
  {
  }

  lemma {:induction false} ListingExists(config: Config) returns (entries: seq<(string, string)>)
    ensures Lists(entries, config)
    decreases |config|
  {
    hide Lists;
    EmptyListed();
    entries := [];
    if config != map[] {
      var key :| key in config;
      var others := ListingExists(config - {key});
      entries := others + [(key, config[key])];
      AppendLists(others, config - {key}, key, config[key]);
      assert (config - {key})[key := config[key]] == config;
    }
  }

  /** A map is the reading of some file exactly when its keys and values are trimmed lines, its
      keys are neither empty, comments nor `__proto__` and hold no '='; and then writing and reading it back
      in any order is the identity. */
  lemma {:induction false} ReadableExactly(config: Config)
    ensures (exists content :: Parsed(content) == config) <==> Writable(config)
    ensures forall entries :: Writable(config) && Lists(entries, config) ==>
      Parsed(Join(Lines(entries), "\n")) == config
  {
    if content :| Parsed(content) == config {
      SplitHasNoBreaks(content);
      ParsedLinesWritable(SplitLines(content));
    }
    forall entries | Writable(config) && Lists(entries, config)
      ensures Parsed(Join(Lines(entries), "\n")) == config
    {
      WrittenReadsBack(entries, config);
    }
    if Writable(config) {
      var entries := ListingExists(config);
      WrittenReadsBack(entries, config);
    }
  }

  // ----- migration

  function RenamedOne(config: Config, oldKey: string, newKey: string): Config {
    if oldKey in config then config[newKey := config[oldKey]] - {oldKey} else config
  }

  function RenamedAll(config: Config, renames: Renames): Config {
    if renames == [] then config
    else
      var (oldKey, newKey) := renames[|renames| - 1];
      RenamedOne(RenamedAll(config, renames[..|renames| - 1]), oldKey, newKey)
  }

  function Without(config: Config, keys: seq<string>): Config {
    config - set k | k in keys
  }

  function Migrated(config: Config): Config {
    Without(RenamedAll(config, V2_RENAMES), V2_REMOVED)
  }

  method MigrateConfig(parsed: Config) returns (working: Config)
    ensures working == Migrated(parsed)
  {
    working := parsed;
    for i := 0 to |V2_RENAMES|
      invariant working == RenamedAll(parsed, V2_RENAMES[..i])
    {
      var (oldKey, newKey) := V2_RENAMES[i];
      if oldKey in working {
        working := working[newKey := working[oldKey]] - {oldKey};
      }
      assert V2_RENAMES[..i + 1][..i] == V2_RENAMES[..i];
    }
    assert V2_RENAMES[..|V2_RENAMES|] == V2_RENAMES;
    ghost var renamed := working;
    for i := 0 to |V2_REMOVED|
      invariant working == Without(renamed, V2_REMOVED[..i])
    {
      if V2_REMOVED[i] in working {
        working := working - {V2_REMOVED[i]};
      }
      assert V2_REMOVED[..i + 1] == V2_REMOVED[..i] + [V2_REMOVED[i]];
    }
    assert V2_REMOVED[..|V2_REMOVED|] == V2_REMOVED;
  }

  function ValidateV1(parsed: Config): seq<string> {
    Filter(key => key !in parsed, V1_REQUIRED)
  }

  /** No key is renamed twice, from or to, and none is both an old and a new name. */
  ghost predicate Apart(renames: Renames) {
    && (forall i, j :: 0 <= i < j < |renames| ==> renames[i].0 != renames[j].0 && renames[i].1 != renames[j].1)
    && (forall i, j :: 0 <= i < |renames| && 0 <= j < |renames| ==> renames[i].0 != renames[j].1)
  }

  predicate Mentioned(renames: Renames, key: string) {
    exists i :: 0 <= i < |renames| && (renames[i].0 == key || renames[i].1 == key)
  }

  predicate SameAt(config: Config, renamed: Config, key: string, renamedKey: string) {
    if key in config then renamedKey in renamed && renamed[renamedKey] == config[key] else renamedKey !in renamed
  }

  /** All the renames at once: a set old key is gone and its new key holds its value; a new key
      whose old key was not set, and any key no rename mentions, is as it was. */
  ghost predicate RenamedAtOnce(config: Config, renames: Renames, renamed: Config) {
    && (forall i :: 0 <= i < |renames| ==>
          var (oldKey, newKey) := renames[i];
          oldKey !in renamed && SameAt(config, renamed, if oldKey in config then oldKey else newKey, newKey))
    && (forall key :: !Mentioned(renames, key) ==> SameAt(config, renamed, key, key))
  }

  lemma {:induction false} LoopRenamesAtOnce(config: Config, renames: Renames)
    requires Apart(renames)
    ensures RenamedAtOnce(config, renames, RenamedAll(config, renames))
  {
    if renames != [] {
      var init := renames[..|renames| - 1];
      var (oldKey, newKey) := renames[|renames| - 1];
      var before, after := RenamedAll(config, init), RenamedAll(config, renames);
      LoopRenamesAtOnce(config, init);
      assert !Mentioned(init, oldKey) && !Mentioned(init, newKey);
      assert SameAt(config, before, oldKey, oldKey) && SameAt(config, before, newKey, newKey);
      forall i | 0 <= i < |init|
        ensures renames[i].0 !in after
        ensures SameAt(config, after, if renames[i].0 in config then renames[i].0 else renames[i].1, renames[i].1)
      {
        assert renames[i] == init[i];
        assert SameAt(config, before, if init[i].0 in config then init[i].0 else init[i].1, init[i].1);
      }
      forall key | !Mentioned(renames, key)
        ensures SameAt(config, after, key, key)
      {
        assert renames[|renames| - 1].0 != key && renames[|renames| - 1].1 != key;
        assert forall i :: 0 <= i < |init| ==> init[i] == renames[i];
        assert !Mentioned(init, key);
      }
    }
  }

  /** Renaming a configuration that sets no old key does nothing. */
  lemma {:induction false} RenamedAlready(config: Config, renames: Renames)
    requires forall i :: 0 <= i < |renames| ==> renames[i].0 !in config
    ensures RenamedAll(config, renames) == config
  {
    if renames != [] { RenamedAlready(config, renames[..|renames| - 1]); }
  }

  /** Enough of a name's shape to tell the schema's names apart. */
  function Shape(key: string): (nat, char, char)
    requires |key| >= 7
  {
    (|key|, key[3], key[if |key| == 13 then 9 else 4])
  }

  const OLD_SHAPES: seq<(nat, char, char)> :=
    [(7, 'H', 'O'), (7, 'P', 'O'), (7, 'U', 'S'), (7, 'P', 'A'), (7, 'N', 'A'), (15, 'I', 'F'), (11, 'R', 'Y'),
     (12, 'N', 'T'), (15, 'L', 'L'), (18, 'C', 'O')]

  const NEW_SHAPES: seq<(nat, char, char)> :=
    [(13, 'A', 'H'), (13, 'A', 'P'), (13, 'A', 'U'), (17, 'A', 'B'), (13, 'A', 'N'), (21, 'I', 'F'), (18, '_', 'R'),
     (21, 'T', 'R'), (20, 'L', 'L'), (26, 'C', 'O')]

  lemma {:induction false} ShapesOfTable()
    ensures forall i :: 0 <= i < 10 ==> |V2_RENAMES[i].0| >= 7 && Shape(V2_RENAMES[i].0) == OLD_SHAPES[i]
    ensures forall i :: 0 <= i < 10 ==> |V2_RENAMES[i].1| >= 7 && Shape(V2_RENAMES[i].1) == NEW_SHAPES[i]
  {
  }

  lemma {:induction false} TableApart()
    ensures Apart(V2_RENAMES)
  {
    ShapesOfTable();
    hide Shape;
    assert forall i, j :: 0 <= i < j < 10 ==> OLD_SHAPES[i] != OLD_SHAPES[j] && NEW_SHAPES[i] != NEW_SHAPES[j];
    assert forall i, j :: 0 <= i < 10 && 0 <= j < 10 ==> OLD_SHAPES[i] != NEW_SHAPES[j];
  }

  /** Migrating a migrated configuration changes nothing. */
  lemma {:induction false} MigrationIdempotent(config: Config)
    ensures Migrated(Migrated(config)) == Migrated(config)
  {
    TableApart();
    LoopRenamesAtOnce(config, V2_RENAMES);
    hide RenamedAll, SameAt, Mentioned;
    var renamed := RenamedAll(config, V2_RENAMES);
    forall i | 0 <= i < |V2_RENAMES|
      ensures V2_RENAMES[i].0 !in Migrated(config)
    {
      assert V2_RENAMES[i].0 !in renamed;
    }
    RenamedAlready(Migrated(config), V2_RENAMES);
  }

  lemma {:induction false} RemovedNameApart()
    ensures !Mentioned(V2_RENAMES, V2_REMOVED[0])
  {
    assert "VITE_STELLAR_NETWORK"[0] == 'V' && "STELLAR_RPC_ENDPOINT"[0] == 'S';
  }

  /** What migration does to every key: removed and old names are gone, a set old name's value
      is under the new name, and every other key is as it was. */
  lemma {:induction false} MigrationExact(config: Config)
    ensures forall i :: 0 <= i < |V2_RENAMES| ==>
      var (oldKey, newKey) := V2_RENAMES[i];
      && oldKey !in Migrated(config)
      && SameAt(config, Migrated(config), if oldKey in config then oldKey else newKey, newKey)
    ensures forall key :: key in V2_REMOVED ==> key !in Migrated(config)
    ensures forall key :: !Mentioned(V2_RENAMES, key) && key !in V2_REMOVED ==>
      SameAt(config, Migrated(config), key, key)
  {
    TableApart();
    LoopRenamesAtOnce(config, V2_RENAMES);
    RemovedNameApart();
    var renamed := RenamedAll(config, V2_RENAMES);
    assert forall i :: 0 <= i < |V2_RENAMES| ==> V2_RENAMES[i].0 != V2_REMOVED[0] && V2_RENAMES[i].1 != V2_REMOVED[0];
    hide RenamedAll, Apart, Mentioned;
    forall key | !Mentioned(V2_RENAMES, key) && key !in V2_REMOVED
      ensures SameAt(config, Migrated(config), key, key)
    {
      assert SameAt(config, renamed, key, key);
    }
  }

  /** The check names exactly the required keys that are not set. */
  lemma {:induction false} ValidationExact(config: Config, key: string)
    ensures key in ValidateV1(config) <==> key in V1_REQUIRED && key !in config
  {
    if key in V1_REQUIRED && key !in config {
      FilterFinds(k => k !in config, V1_REQUIRED, key);
    }
  }

  /** What the schema keeps the names of is named apart from all it renames or removes. */
  lemma {:induction false} KeptNamesApart()
    ensures forall i :: 1 <= i < 5 ==> V1_REQUIRED[i] == V2_REQUIRED[i] && !Mentioned(V2_RENAMES, V1_REQUIRED[i])
    ensures forall i :: 0 <= i < 5 ==> V2_REQUIRED[i] !in V2_REMOVED
    ensures V2_RENAMES[8] == (V1_REQUIRED[0], V2_REQUIRED[0])
  {
    assert "STELLAR_NETWORK"[8] == 'N' && "STELLAR_RPC_URL"[8] == 'R' && "NOTIFY_ENDPOINT"[8] == 'N'
           && "NOTIFY_ENDPOINT"[0] == 'N';
    assert "CONTRACT_ADDRESSES"[0] == 'C' && "DISCORD_WEBHOOK_ID"[0] == 'D' && "MAX_RETRY_ATTEMPTS"[0] == 'M';
    assert "STELLAR_RPC_ENDPOINT"[0] == 'S' && "VITE_STELLAR_NETWORK"[0] == 'V'
           && "STELLAR_NETWORK_PASSPHRASE"[0] == 'S';
    assert "DISCORD_WEBHOOK_CHANNEL_ID"[0] == 'D';
  }

  /** Every configuration the v1 check passes migrates to one with all the keys v2 requires,
      each holding the value of the v1 key it comes from. */
  lemma {:induction false} RequiredKeysSurvive(config: Config)
    requires ValidateV1(config) == []
    ensures forall i :: 0 <= i < |V2_REQUIRED| ==>
      V1_REQUIRED[i] in config && V2_REQUIRED[i] in Migrated(config)
        && Migrated(config)[V2_REQUIRED[i]] == config[V1_REQUIRED[i]]
  {
    forall i | 0 <= i < 5
      ensures V1_REQUIRED[i] in config
    {
      ValidationExact(config, V1_REQUIRED[i]);
    }
    TableApart();
    LoopRenamesAtOnce(config, V2_RENAMES);
    KeptNamesApart();
    hide RenamedAll, Mentioned, Apart;
    var renamed := RenamedAll(config, V2_RENAMES);
    forall i | 0 <= i < 5
      ensures V2_REQUIRED[i] in Migrated(config) && Migrated(config)[V2_REQUIRED[i]] == config[V1_REQUIRED[i]]
    {
      if i == 0 {
        assert SameAt(config, renamed, V1_REQUIRED[0], V2_REQUIRED[0]);
      } else {
        assert SameAt(config, renamed, V1_REQUIRED[i], V2_REQUIRED[i]);
      }
    }
  }

  /** The old name is gone, and the new one holds what the old one did, or else what it did itself. */
  predicate RenamedIn(config: Config, migrated: Config, oldKey: string, newKey: string) {
    && oldKey !in migrated
    && (oldKey in config || newKey in config <==> newKey in migrated)
    && (newKey in migrated ==> migrated[newKey] == if oldKey in config then config[oldKey] else config[newKey])
  }

  /** Every old name of v1 and the v2 name its value ends under. */
  lemma {:induction false} NamedKeysMigrate(config: Config)
    ensures var m := Migrated(config);
      && RenamedIn(config, m, "DB_HOST", "DATABASE_HOST") && RenamedIn(config, m, "DB_PORT", "DATABASE_PORT")
      && RenamedIn(config, m, "DB_USER", "DATABASE_USER") && RenamedIn(config, m, "DB_PASS", "DATABASE_PASSWORD")
      && RenamedIn(config, m, "DB_NAME", "DATABASE_NAME")
      && RenamedIn(config, m, "NOTIFY_ENDPOINT", "NOTIFICATION_ENDPOINT")
      && RenamedIn(config, m, "RETRY_COUNT", "MAX_RETRY_ATTEMPTS")
      && RenamedIn(config, m, "EVENT_FILTER", "CONTRACT_EVENT_FILTER")
      && RenamedIn(config, m, "STELLAR_RPC_URL", "STELLAR_RPC_ENDPOINT")
      && RenamedIn(config, m, "DISCORD_WEBHOOK_ID", "DISCORD_WEBHOOK_CHANNEL_ID")
      && "VITE_STELLAR_NETWORK" !in m
  {
    MigrationExact(config);
    hide Migrated, Mentioned;
    forall i | 0 <= i < |V2_RENAMES|
      ensures RenamedIn(config, Migrated(config), V2_RENAMES[i].0, V2_RENAMES[i].1)
    {
    }
    hide RenamedIn;
    assert V2_RENAMES[0] == ("DB_HOST", "DATABASE_HOST") && V2_RENAMES[1] == ("DB_PORT", "DATABASE_PORT");
    assert V2_RENAMES[2] == ("DB_USER", "DATABASE_USER") && V2_RENAMES[3] == ("DB_PASS", "DATABASE_PASSWORD");
    assert V2_RENAMES[4] == ("DB_NAME", "DATABASE_NAME");
    assert V2_RENAMES[5] == ("NOTIFY_ENDPOINT", "NOTIFICATION_ENDPOINT");
    assert V2_RENAMES[6] == ("RETRY_COUNT", "MAX_RETRY_ATTEMPTS");
    assert V2_RENAMES[7] == ("EVENT_FILTER", "CONTRACT_EVENT_FILTER");
    assert V2_RENAMES[8] == ("STELLAR_RPC_URL", "STELLAR_RPC_ENDPOINT");
    assert V2_RENAMES[9] == ("DISCORD_WEBHOOK_ID", "DISCORD_WEBHOOK_CHANNEL_ID");
    assert V2_REMOVED[0] == "VITE_STELLAR_NETWORK" && V2_REMOVED[0] in V2_REMOVED;
  }

  predicate SetAs(migrated: Config, newKey: string, config: Config, oldKey: string) {
    oldKey in config && newKey in migrated && migrated[newKey] == config[oldKey]
  }

  /** The check passes a configuration that sets five keys, and no other; and migrated it has each
      of their values, the endpoint's under its new name. */
  lemma {:induction false} NamedKeysRequired(config: Config)
    ensures ValidateV1(config) == []
            <==> && "STELLAR_RPC_URL" in config && "STELLAR_NETWORK" in config && "STELLAR_NETWORK_PASSPHRASE" in config
                 && "CONTRACT_ADDRESSES" in config && "LOG_LEVEL" in config
    ensures var m := Migrated(config); ValidateV1(config) == [] ==>
      && SetAs(m, "STELLAR_RPC_ENDPOINT", config, "STELLAR_RPC_URL")
      && SetAs(m, "STELLAR_NETWORK", config, "STELLAR_NETWORK")
      && SetAs(m, "STELLAR_NETWORK_PASSPHRASE", config, "STELLAR_NETWORK_PASSPHRASE")
      && SetAs(m, "CONTRACT_ADDRESSES", config, "CONTRACT_ADDRESSES") && SetAs(m, "LOG_LEVEL", config, "LOG_LEVEL")
  {
    hide Migrated, ValidateV1;
    forall i | 0 <= i < 5 { ValidationExact(config, V1_REQUIRED[i]); }
    assert V1_REQUIRED[0] == "STELLAR_RPC_URL" && V1_REQUIRED[1] == "STELLAR_NETWORK";
    assert V1_REQUIRED[2] == "STELLAR_NETWORK_PASSPHRASE" && V1_REQUIRED[3] == "CONTRACT_ADDRESSES";
    assert V1_REQUIRED[4] == "LOG_LEVEL" && V2_REQUIRED[0] == "STELLAR_RPC_ENDPOINT";
    assert V2_REQUIRED[1] == "STELLAR_NETWORK" && V2_REQUIRED[2] == "STELLAR_NETWORK_PASSPHRASE";
    assert V2_REQUIRED[3] == "CONTRACT_ADDRESSES" && V2_REQUIRED[4] == "LOG_LEVEL";
    if ValidateV1(config) == [] {
      RequiredKeysSurvive(config);
    } else {
      var key := ValidateV1(config)[0];
      ValidationExact(config, key);
    }
  }

  predicate IsNameChar(c: char) {
    'A' <= c <= 'Z' || c == '_'
  }

  lemma {:induction false} NameIsKey(key: string)
    requires key != "" && forall c :: c in key ==> IsNameChar(c)
    ensures IsKey(key)
  {
    assert key[0] in key && key[|key| - 1] in key;
    assert UNSTORED[2] == 'p' && !IsNameChar(UNSTORED[2]);
  }

  lemma {:induction false} NewNamesAreKeys()
    ensures forall i :: 0 <= i < |V2_RENAMES| ==> IsKey(V2_RENAMES[i].1)
  {
    hide IsKey;
    forall i | 0 <= i < |V2_RENAMES|
      ensures IsKey(V2_RENAMES[i].1)
    {
      NameIsKey(V2_RENAMES[i].1);
    }
  }

  lemma {:induction false} RenamingKeepsWritable(config: Config, renames: Renames)
    requires Writable(config) && forall i :: 0 <= i < |renames| ==> IsKey(renames[i].1)
    ensures Writable(RenamedAll(config, renames))
  {
    if renames != [] { RenamingKeepsWritable(config, renames[..|renames| - 1]); }
  }

  /** The migrated file, its entries in any order, reads as the migrated configuration, and
      migrating that file again gives it once more. */
  lemma {:induction false} MigratedFileReadsBack(content: string, entries: seq<(string, string)>)
    requires Lists(entries, Migrated(Parsed(content)))
    ensures Parsed(Join(Lines(entries), "\n")) == Migrated(Parsed(content))
    ensures Migrated(Parsed(Join(Lines(entries), "\n"))) == Migrated(Parsed(content))
  {
    var config := Parsed(content);
    ReadableExactly(config);
    NewNamesAreKeys();
    RenamingKeepsWritable(config, V2_RENAMES);
    WrittenReadsBack(entries, Migrated(config));
    MigrationIdempotent(config);
  }
}
