/** Plugin configuration kept as an append-only history of versions, without credentials. */
module ConfigStore {
  import opened Common

  // ------------------------------------------------------------ credentials

  /** A value of a configuration entry: a dictionary, or anything else. */
  datatype Setting = Dict(values: map<string, int>) | Plain(value: int)

  type Entry = map<string, Setting>

  type Config = map<string, Entry>

  const SECRET_KEY_SUFFIXES: set<string> := {"api_key", "token", "secret", "password"}

  /**
   `str.lower`, as far as an ASCII suffix can tell: the capitals A to Z and the Kelvin sign are the
   only characters whose lower case is a single ASCII letter.
   */
  function Lower(c: char): char {
    if 'A' <= c <= 'Z' then (c as int + 32) as char
    else if c as int == 0x212a then 'k'
    else c
  }

  /** Each of the 26 capitals has its small letter, and small letters stay as they are. */
  lemma LowerOf(n: nat)
    requires n < 26
    ensures Lower((65 + n) as char) == (97 + n) as char && Lower((97 + n) as char) == (97 + n) as char
    ensures Lower('\U{212a}') == 'k'
  {
  }

  function LowerText(s: string): (t: string)
    ensures |t| == |s| && forall i :: 0 <= i < |s| ==> t[i] == Lower(s[i])
  {
    if s == "" then "" else [Lower(s[0])] + LowerText(s[1..])
  }

  /** `key.rsplit(".", 1)[-1]`: what follows the last dot. */
  function LastSegment(key: string): string {
    if key == "" || key[|key| - 1] == '.' then "" else LastSegment(key[..|key| - 1]) + [key[|key| - 1]]
  }

  predicate EndsWith(s: string, suffix: string) {
    |suffix| <= |s| && s[|s| - |suffix|..] == suffix
  }

  predicate IsSecretSegment(lowered: string) {
    exists suffix :: suffix in SECRET_KEY_SUFFIXES && EndsWith(lowered, suffix)
  }

  predicate IsSecret(key: string) {
    IsSecretSegment(LowerText(LastSegment(key)))
  }

  /** The suffix after the last dot, stated without recursion. */
  lemma {:induction false} LastSegmentIs(key: string, start: nat)
    requires start <= |key| && (start == 0 || key[start - 1] == '.')
    requires forall i :: start <= i < |key| ==> key[i] != '.'
    ensures LastSegment(key) == key[start..]
  {
    if start < |key| {
      LastSegmentIs(key[..|key| - 1], start);
      assert key[start..] == key[..|key| - 1][start..] + [key[|key| - 1]];
    }
  }

  /** Only what follows the last dot counts: a dotted prefix neither hides nor makes a credential. */
  lemma {:induction false} PrefixDoesNotMatter(prefix: string, name: string)
    ensures LastSegment(prefix + "." + name) == LastSegment(name)
    ensures IsSecret(prefix + "." + name) <==> IsSecret(name)
  {
    var key := prefix + "." + name;
    if name != "" {
      assert key[..|key| - 1] == prefix + "." + name[..|name| - 1];
      if name[|name| - 1] != '.' {
        PrefixDoesNotMatter(prefix, name[..|name| - 1]);
      }
    }
  }

  lemma {:induction false} LastSegmentOfLower(key: string)
    ensures LastSegment(LowerText(key)) == LowerText(LastSegment(key))
  {
    if key != "" {
      var start, last := key[..|key| - 1], key[|key| - 1];
      assert key == start + [last];
      LowerLast(start, last);
      LastSegmentOfLower(start);
      LastSegmentLast(start, last);
      LastSegmentLast(LowerText(start), Lower(last));
      LowerLast(LastSegment(start), last);
    }
  }

  lemma LastSegmentLast(start: string, last: char)
    ensures LastSegment(start + [last]) == if last == '.' then "" else LastSegment(start) + [last]
  {
    assert (start + [last])[..|start|] == start;
  }

  /**
   A name is secret exactly when, capitals aside, it ends with one of four words, which none of its
   dots changes.
   */
  lemma SecretIff(key: string)
    ensures IsSecret(key)
            <==> exists i :: 0 <= i <= |key| && LowerText(key[i..]) in {"api_key", "token", "secret", "password"}
  {
    hide LowerText, LastSegment;
    if IsSecret(key) {
      var i := SecretTail(key);
    }
    if i :| 0 <= i <= |key| && LowerText(key[i..]) in {"api_key", "token", "secret", "password"} {
      TailIsSecret(key, i);
    }
  }

  lemma SecretTail(key: string) returns (i: nat)
    requires IsSecret(key)
    ensures i <= |key| && LowerText(key[i..]) in SECRET_KEY_SUFFIXES
  {
    var start := SegmentStart(key);
    LastSegmentIs(key, start);
    var last := LowerText(key[start..]);
    var suffix :| suffix in SECRET_KEY_SUFFIXES && EndsWith(last, suffix);
    hide LowerText, LastSegment;
    i := |key| - |suffix|;
    LowerOfTail(key, start, i);
  }

  lemma TailIsSecret(key: string, i: nat)
    requires i <= |key| && LowerText(key[i..]) in SECRET_KEY_SUFFIXES
    ensures IsSecret(key)
  {
    var start := SegmentStart(key);
    var word := LowerText(key[i..]);
    LastSegmentIs(key, start);
    NoDotIn(word);
    forall j | i <= j < |key| ensures key[j] != '.' {
      assert word[j - i] == Lower(key[i..][j - i]);
    }
    hide LowerText, LastSegment;
    LowerOfTail(key, start, i);
    assert EndsWith(LowerText(LastSegment(key)), word);
  }

  lemma NoDotIn(word: string)
    requires word in SECRET_KEY_SUFFIXES
    ensures '.' !in word
  {
  }

  lemma LowerOfTail(key: string, start: nat, i: nat)
    requires start <= i <= |key|
    ensures LowerText(key[start..])[i - start..] == LowerText(key[i..])
  {
  }

  /** Where the last segment starts. */
  lemma {:induction false} SegmentStart(key: string) returns (start: nat)
    ensures start <= |key| && (start == 0 || key[start - 1] == '.')
    ensures forall i :: start <= i < |key| ==> key[i] != '.'
  {
    if key == "" || key[|key| - 1] == '.' {
      start := |key|;
    } else {
      start := SegmentStart(key[..|key| - 1]);
    }
  }

  lemma LowerTwice(s: string)
    ensures LowerText(LowerText(s)) == LowerText(s)
  {
  }

  /** Capitals do not hide a credential either. */
  lemma CaseDoesNotMatter(key: string)
    ensures IsSecret(LowerText(key)) <==> IsSecret(key)
  {
    hide IsSecretSegment, LowerText, LastSegment;
    LastSegmentOfLower(key);
    LowerTwice(LastSegment(key));
  }

  lemma LowerLast(s: string, c: char)
    ensures LowerText(s + [c]) == LowerText(s) + [Lower(c)]
  {
    assert |LowerText(s + [c])| == |s| + 1;
  }

  function StripSecrets(properties: map<string, int>): map<string, int> {
    map key | key in properties && !IsSecret(key) :: properties[key]
  }

  function CleanEntry(entry: Entry): Entry {
    if "properties" in entry && entry["properties"].Dict?
    then entry["properties" := Dict(StripSecrets(entry["properties"].values))]
    else entry
  }

  ghost function Cleaned(plugins: Config): Config {
    map name | name in plugins :: CleanEntry(plugins[name])
  }

  /** No property of any plugin has the name of a credential. */
  ghost predicate NoSecrets(config: Config) {
    forall name, key ::
      (&& name in config && "properties" in config[name] && config[name]["properties"].Dict?
       && key in config[name]["properties"].values) ==> !IsSecret(key)
  }

  method CleanConfig(plugins: Config) returns (cleaned: Config)
    ensures cleaned == Cleaned(plugins)
    ensures NoSecrets(cleaned)
  {
    cleaned := map[];
    var names := plugins.Keys;
    while names != {}
      invariant names <= plugins.Keys && cleaned.Keys == plugins.Keys - names
      invariant forall name :: name in cleaned ==> cleaned[name] == CleanEntry(plugins[name])
    {
      var name :| name in names;
      cleaned := cleaned[name := CleanEntry(plugins[name])];
      names := names - {name};
    }
    CleaningRemovesSecrets(plugins);
  }

  /** Cleaning removes credentials and nothing else: what has none is left as it is. */
  lemma CleaningRemovesSecrets(plugins: Config)
    ensures NoSecrets(Cleaned(plugins))
    ensures Cleaned(plugins) == plugins <==> NoSecrets(plugins)
    ensures Cleaned(Cleaned(plugins)) == Cleaned(plugins)
  {
    CleanIffNoSecrets(plugins);
    CleanIffNoSecrets(Cleaned(plugins));
  }

  /** Property by property: a credential is gone, anything else is as it was. */
  lemma CleanedIs(plugins: Config, name: string)
    ensures name in Cleaned(plugins) <==> name in plugins
    ensures name in plugins ==>
              && Cleaned(plugins)[name].Keys == plugins[name].Keys
              && (forall k :: k in plugins[name] && (k != "properties" || plugins[name][k].Plain?) ==>
                    Cleaned(plugins)[name][k] == plugins[name][k])
    ensures name in plugins && "properties" in plugins[name] && plugins[name]["properties"].Dict? ==>
              && Cleaned(plugins)[name]["properties"].Dict?
              && var before, after := plugins[name]["properties"].values, Cleaned(plugins)[name]["properties"].values;
                 && (forall key :: key in after <==> key in before && !IsSecret(key))
                 && (forall key :: key in after ==> after[key] == before[key])
  {
    hide IsSecret;
  }

  lemma CleanIffNoSecrets(plugins: Config)
    ensures Cleaned(plugins) == plugins <==> NoSecrets(plugins)
  {
    if NoSecrets(plugins) {
      forall name | name in plugins ensures CleanEntry(plugins[name]) == plugins[name] {
        var entry := plugins[name];
        if "properties" in entry && entry["properties"].Dict? {
          assert StripSecrets(entry["properties"].values) == entry["properties"].values;
        }
      }
    }
    if Cleaned(plugins) == plugins {
      forall name, key | name in plugins && "properties" in plugins[name] && plugins[name]["properties"].Dict?
        && key in plugins[name]["properties"].values ensures !IsSecret(key)
      {
        assert Cleaned(plugins)[name] == CleanEntry(plugins[name]);
        assert key in StripSecrets(plugins[name]["properties"].values);
      }
    }
  }

  // ------------------------------------------------------------ versions

  const SCHEMA := 1

  /** One version; `target` is the version a rollback points at.  Time stamps are left out. */
  datatype Version = Version(number: int, action: string, actor: string, config: Config, target: Option<int>)

  datatype Payload = Payload(current: int, history: seq<Version>)

  datatype FileContent = Missing | Broken | Stored(schema: int, payload: Payload)

  datatype StoreError = InvalidFile | UnsupportedSchema | UnknownVersion

  /** What a caller may ask of a store. */
  datatype Edit = Update(plugins: Config, action: string) | Rollback(number: int)

  function FreshPayload(): Payload {
    Payload(1, [Version(1, "init", "system", map[], None)])
  }

  ghost function Lookup(history: seq<Version>, number: int): Option<Version> {
    if history == [] then None
    else if history[0].number == number then Some(history[0])
    else Lookup(history[1..], number)
  }

  function Append(payload: Payload, config: Config, action: string, actor: string, target: Option<int>): Payload {
    var number := payload.current + 1;
    Payload(number, payload.history + [Version(number, action, actor, config, target)])
  }

  ghost function Apply(payload: Payload, edit: Edit, actor: string): Result<Payload, StoreError> {
    match edit
    case Update(plugins, action) => Ok(Append(payload, Cleaned(plugins), action, actor, None))
    case Rollback(number) =>
      var target := Lookup(payload.history, number);
      if target.None? then Err(UnknownVersion)
      else Ok(Append(payload, target.value.config, "rollback", actor, Some(number)))
  }

  /** A rollback points at an earlier version with the configuration it restored. */
  ghost predicate PointsBack(history: seq<Version>, i: nat)
    requires i < |history|
  {
    history[i].target.Some? ==>
      && 1 <= history[i].target.value <= i
      && history[history[i].target.value - 1].config == history[i].config
  }

  /** Versions are numbered from 1 without gaps, the last is current, and none holds a credential. */
  ghost predicate Linear(payload: Payload) {
    var history := payload.history;
    && 1 <= |history| == payload.current
    && (forall i :: 0 <= i < |history| ==> history[i].number == i + 1 && NoSecrets(history[i].config))
    && (forall i :: 0 <= i < |history| ==> PointsBack(history, i))
  }

  lemma {:induction false} LookupFirst(history: seq<Version>, number: int, first: int)
    requires forall i :: 0 <= i < |history| ==> history[i].number == first + i
    ensures Lookup(history, number)
            == if first <= number < first + |history| then Some(history[number - first]) else None
  {
    if history != [] {
      LookupFirst(history[1..], number, first + 1);
    }
  }

  /** In a linear history every number from 1 to the current one is found, and no other. */
  lemma EveryVersionIsFound(payload: Payload, number: int)
    requires Linear(payload)
    ensures Lookup(payload.history, number)
            == if 1 <= number <= payload.current then Some(payload.history[number - 1]) else None
  {
    LookupFirst(payload.history, number, 1);
  }

  lemma EditKeepsLinear(payload: Payload, edit: Edit, actor: string)
    requires Linear(payload)
    ensures Apply(payload, edit, actor).Ok? <==> edit.Update? || 1 <= edit.number <= payload.current
    ensures var r := Apply(payload, edit, actor);
            r.Ok? ==> Linear(r.value) && payload.history <= r.value.history && r.value.current == payload.current + 1
  {
    var r := Apply(payload, edit, actor);
    match edit {
      case Update(plugins, _) => CleaningRemovesSecrets(plugins);
      case Rollback(number) => EveryVersionIsFound(payload, number);
    }
    if r.Ok? {
      forall i | 0 <= i < |r.value.history| ensures PointsBack(r.value.history, i) {
        assert i < |payload.history| ==> PointsBack(payload.history, i);
      }
    }
  }

  /** The payload after a run of edits; a refused edit changes nothing. */
  ghost function Run(payload: Payload, edits: seq<Edit>, actor: string): Payload
    decreases |edits|
  {
    if edits == [] then payload
    else
      var r := Apply(payload, edits[0], actor);
      Run(if r.Ok? then r.value else payload, edits[1..], actor)
  }

  /** Every run keeps the history linear, and no version that was ever written changes or is lost. */
  lemma {:induction false} RunsOnlyAppend(payload: Payload, edits: seq<Edit>, actor: string)
    requires Linear(payload)
    ensures Linear(Run(payload, edits, actor))
    ensures payload.history <= Run(payload, edits, actor).history
    decreases |edits|
  {
    if edits != [] {
      EditKeepsLinear(payload, edits[0], actor);
      var r := Apply(payload, edits[0], actor);
      RunsOnlyAppend(if r.Ok? then r.value else payload, edits[1..], actor);
    }
  }

  /** Following the targets of rollbacks from a version. */
  ghost function Origin(payload: Payload, number: int): int
    requires Linear(payload) && 1 <= number <= payload.current
    decreases number
  {
    var version := payload.history[number - 1];
    assert PointsBack(payload.history, number - 1);
    if version.target.None? then number else Origin(payload, version.target.value)
  }

  /** The links end at a version that is no rollback and holds the same configuration. */
  lemma {:induction false} LinksEnd(payload: Payload, number: int)
    requires Linear(payload) && 1 <= number <= payload.current
    ensures var origin := Origin(payload, number);
            && 1 <= origin <= number
            && payload.history[origin - 1].target.None?
            && payload.history[origin - 1].config == payload.history[number - 1].config
    decreases number
  {
    assert PointsBack(payload.history, number - 1);
    if payload.history[number - 1].target.Some? {
      LinksEnd(payload, payload.history[number - 1].target.value);
    }
  }

  class ConfigFile {
    var content: FileContent

    constructor ()
      ensures content == Missing
    {
      content := Missing;
    }
  }

  class PluginConfigStore {
    const file: ConfigFile
    var payload: Payload

    constructor (file: ConfigFile, payload: Payload)
      ensures this.file == file && this.payload == payload
    {
      this.file, this.payload := file, payload;
    }

    /** What is on disk is what is in memory, and it is a linear history. */
    ghost predicate Valid()
      reads this, file
    {
      Linear(payload) && file.content == Stored(SCHEMA, payload)
    }

    method Write()
      modifies file
      ensures file.content == Stored(SCHEMA, payload)
    {
      file.content := Stored(SCHEMA, payload);
    }

    /** `_version`: the first entry with the number. */
    method FindVersion(number: int) returns (found: Option<Version>)
      ensures found == Lookup(payload.history, number)
    {
      for i := 0 to |payload.history|
        invariant Lookup(payload.history, number) == Lookup(payload.history[i..], number)
      {
        if payload.history[i].number == number {
          return Some(payload.history[i]);
        }
        assert payload.history[i..][1..] == payload.history[i + 1..];
      }
      return None;
    }

    /** `current`: the entry with the current number, the last one written. */
    method Current() returns (found: Option<Version>)
      ensures found == Lookup(payload.history, payload.current)
      ensures Linear(payload) ==> found == Some(payload.history[|payload.history| - 1])
    {
      found := FindVersion(payload.current);
      if Linear(payload) {
        EveryVersionIsFound(payload, payload.current);
      }
    }

    method AppendVersion(config: Config, action: string, actor: string, target: Option<int>) returns (number: int)
      modifies this, file
      ensures payload == Append(old(payload), config, action, actor, target)
      ensures number == payload.current && file.content == Stored(SCHEMA, payload)
    {
      payload := Append(payload, config, action, actor, target);
      Write();
      number := payload.current;
    }

    method UpdatePlugins(plugins: Config, actor: string, action: string) returns (number: int)
      modifies this, file
      ensures Ok(payload) == Apply(old(payload), Update(plugins, action), actor)
      ensures number == payload.current && file.content == Stored(SCHEMA, payload)
      ensures old(Linear(payload)) ==> Valid() && number == old(payload.current) + 1
      ensures payload.history == old(payload.history) + [Version(number, action, actor, Cleaned(plugins), None)]
    {
      var cleaned := CleanConfig(plugins);
      if Linear(payload) {
        EditKeepsLinear(payload, Update(plugins, action), actor);
      }
      number := AppendVersion(cleaned, action, actor, None);
    }

    method RollbackTo(number: int, actor: string) returns (r: Result<int, StoreError>)
      modifies this, file
      ensures r.Ok? ==> Ok(payload) == Apply(old(payload), Rollback(number), actor)
                        && r.value == payload.current && file.content == Stored(SCHEMA, payload)
      ensures r.Err? ==> Apply(old(payload), Rollback(number), actor) == Err(r.error)
                         && payload == old(payload) && file.content == old(file.content)
      ensures old(Valid()) ==> Valid() && (r.Ok? <==> 1 <= number <= old(payload.current))
      ensures old(Valid()) && r.Ok? ==>
                && r.value == old(payload.current) + 1
                && payload.history == old(payload.history)
                   + [Version(r.value, "rollback", actor, old(payload.history)[number - 1].config, Some(number))]
    {
      if Linear(payload) {
        EditKeepsLinear(payload, Rollback(number), actor);
        EveryVersionIsFound(payload, number);
      }
      var target := FindVersion(number);
      if target.None? {
        return Err(UnknownVersion);
      }
      var written := AppendVersion(target.value.config, "rollback", actor, Some(number));
      return Ok(written);
    }
  }

  /** Opening a file: a missing one is started, a broken or foreign one is refused. */
  method Load(file: ConfigFile) returns (r: Result<PluginConfigStore, StoreError>)
    modifies file
    ensures r.Ok? ==> fresh(r.value) && r.value.file == file && file.content == Stored(SCHEMA, r.value.payload)
    ensures old(file.content).Missing? ==>
              r.Ok? && r.value.payload == Payload(1, [Version(1, "init", "system", map[], None)]) && r.value.Valid()
    ensures !old(file.content).Missing? ==> file.content == old(file.content)
    ensures r.Err? <==> match old(file.content)
                        case Missing => false
                        case Broken => true
                        case Stored(schema, payload) => schema != 1 || payload.history == []
  {
    match file.content {
      case Missing =>
        var store := new PluginConfigStore(file, FreshPayload());
        store.Write();
        r := Ok(store);
      case Broken =>
        r := Err(InvalidFile);
      case Stored(schema, payload) =>
        if schema != SCHEMA {
          r := Err(UnsupportedSchema);
        } else if payload.history == [] {
          r := Err(InvalidFile);
        } else {
          var store := new PluginConfigStore(file, payload);
          r := Ok(store);
        }
    }
  }
}
