/**
 Editing the dynamic configuration by dotted paths: `apply_config_changes` and its inner
 `set_path_value`, on configurations as nested dictionaries. Everything YAML knows besides
 dictionaries is a scalar here.
 */
module ConfigPath {
  import opened Options
  import opened Text

  datatype Value = Scalar(text: string) | Dict(items: Config)

  type Config = map<string, Value>

  type Path = seq<string>

  const PARAMETERS: Path := ["postgresql", "parameters"]

  function Get(config: Config, path: Path): Option<Value>
    requires path != []
    decreases |path|
  {
    if path[0] !in config then None
    else if |path| == 1 then Some(config[path[0]])
    else match config[path[0]]
      case Scalar(_) => None
      case Dict(items) => Get(items, path[1..])
  }

  /** The dictionary under `key`; a missing one, and whatever else is there, counts as empty. */
  function Child(config: Config, key: string): Config {
    if key in config && config[key].Dict? then config[key].items else map[]
  }

  /** Plain assignment at a path; None removes, together with dictionaries left empty. */
  function Assign(config: Config, path: Path, value: Option<Value>): Config
    requires path != []
    decreases |path|
  {
    if |path| == 1 then
      match value case None => config - {path[0]} case Some(v) => config[path[0] := v]
    else
      var child := Assign(Child(config, path[0]), path[1..], value);
      if child == map[] then config - {path[0]} else config[path[0] := Dict(child)]
  }

  /** Server parameters have dots in their names and are never nested. */
  function Effective(path: Path): (r: Path)
    ensures path != [] ==> r != []
  {
    if |path| > 2 && path[..2] == PARAMETERS then PARAMETERS + [Join(path[2..], '.')] else path
  }

  /** `set_path_value`. `prefix` is the part of the path opened by the callers. */
  method SetPathValue(before: Config, fullPath: Path, value: Option<Value>, prefix: Path) returns (config: Config)
    requires fullPath != []
    ensures prefix == [] ==> config == Assign(before, Effective(fullPath), value)
    ensures config == Assign(before, BelowPrefix(prefix, fullPath), value)
    decreases |fullPath|
  {
    config := before;
    var path := fullPath;
    if prefix == PARAMETERS {
      path := [Join(path, '.')];
    }
    var key := path[0];
    if |path| == 1 {
      match value
      case None => config := config - {key};
      case Some(v) => config := config[key := v];
    } else {
      if key !in config || !config[key].Dict? {
        config := config[key := Dict(map[])];
      }
      var child := SetPathValue(config[key].items, path[1..], value, prefix + [key]);
      config := config[key := Dict(child)];
      if child == map[] {
        config := config - {key};
      }
    }
    BelowEmptyPrefix(fullPath);
  }

  /** What is left of the path for a caller that opened `prefix`. */
  function BelowPrefix(prefix: Path, path: Path): (r: Path)
    requires path != []
    ensures r != []
    decreases |path|
  {
    if prefix == PARAMETERS then [Join(path, '.')]
    else if |path| == 1 then path
    else [path[0]] + BelowPrefix(prefix + [path[0]], path[1..])
  }

  lemma {:induction false} LongPrefix(prefix: Path, path: Path)
    requires path != [] && |prefix| > 2
    ensures BelowPrefix(prefix, path) == path
    decreases |path|
  {
    if |path| > 1 {
      LongPrefix(prefix + [path[0]], path[1..]);
    }
  }

  lemma BelowEmptyPrefix(path: Path)
    requires path != []
    ensures BelowPrefix([], path) == Effective(path)
  {
    if |path| > 1 {
      assert [] + [path[0]] == [path[0]];
      if |path| > 2 {
        assert [path[0]] + [path[1]] == path[..2];
        var rest := path[2..];
        assert path[1..][0] == path[1] && path[1..][1..] == rest;
        if path[..2] != PARAMETERS && |rest| > 1 {
          LongPrefix(path[..2] + [rest[0]], rest[1..]);
          assert BelowPrefix(path[..2], rest) == [rest[0]] + rest[1..] == rest;
        }
        assert BelowPrefix([], path) == [path[0]] + ([path[1]] + BelowPrefix(path[..2], rest));
      }
    }
  }

  // ---------------------------------------------------------------- one change

  /** A written value is there. */
  lemma {:induction false} WriteIsReadable(config: Config, path: Path, value: Value)
    requires path != []
    ensures Get(Assign(config, path, Some(value)), path) == Some(value)
    decreases |path|
  {
    if |path| > 1 {
      WriteIsReadable(Child(config, path[0]), path[1..], value);
    }
  }

  ghost predicate Blocked(config: Config, path: Path) {
    exists k :: 0 < k < |path| && StopsAt(config, path[..k])
  }

  /** A scalar or an empty dictionary at this path. */
  predicate StopsAt(config: Config, path: Path)
    requires path != []
  {
    var v := Get(config, path);
    v.Some? && (v.value.Scalar? || v.value.items == map[])
  }

  lemma StopsBelow(config: Config, path: Path, k: nat)
    requires 1 < k < |path| && path[0] in config
    ensures StopsAt(config, path[..k]) <==> config[path[0]].Dict? && StopsAt(config[path[0]].items, path[1..][..k - 1])
  {
    assert path[..k][1..] == path[1..][..k - 1];
  }

  lemma BlockedBelow(config: Config, path: Path)
    requires |path| > 1
    ensures Blocked(config, path) <==>
            StopsAt(config, path[..1]) || (path[0] in config && config[path[0]].Dict? && Blocked(config[path[0]].items, path[1..]))
  {
    if StopsAt(config, path[..1]) {
      assert Blocked(config, path);
    } else if path[0] in config && config[path[0]].Dict? {
      var items := config[path[0]].items;
      if Blocked(items, path[1..]) {
        var k :| 0 < k < |path[1..]| && StopsAt(items, path[1..][..k]);
        StopsBelow(config, path, k + 1);
      } else if Blocked(config, path) {
        var k :| 0 < k < |path| && StopsAt(config, path[..k]);
        StopsBelow(config, path, k);
      }
    }
  }

  /** A removed value is gone, and no dictionary on the way to it is left empty. */
  lemma {:induction false} RemovalRemoves(config: Config, path: Path)
    requires path != []
    ensures Get(Assign(config, path, None), path) == None
    ensures !Blocked(Assign(config, path, None), path)
    decreases |path|
  {
    if |path| > 1 {
      RemovalRemoves(Child(config, path[0]), path[1..]);
      BlockedBelow(Assign(config, path, None), path);
    }
  }

  /** Removal changes nothing exactly when there is nothing to remove and nothing to prune. */
  lemma {:induction false} RemovalIsNoOpIff(config: Config, path: Path)
    requires path != []
    ensures Assign(config, path, None) == config <==> Get(config, path) == None && !Blocked(config, path)
    decreases |path|
  {
    if |path| == 1 {
    } else {
      RemovalIsNoOpIff(Child(config, path[0]), path[1..]);
      BlockedBelow(config, path);
      NothingInside(path[1..]);
    }
  }

  lemma NothingInside(path: Path)
    requires path != []
    ensures Get(map[], path) == None && !Blocked(map[], path)
  {
  }

  /** Of two changes to one path only the second counts. */
  lemma {:induction false} LastChangeWins(config: Config, path: Path, first: Option<Value>, second: Option<Value>)
    requires path != []
    ensures Assign(Assign(config, path, first), path, second) == Assign(config, path, second)
    decreases |path|
  {
    if |path| > 1 {
      LastChangeWins(Child(config, path[0]), path[1..], first, second);
      assert Child(Assign(config, path, first), path[0]) == Assign(Child(config, path[0]), path[1..], first);
    }
  }

  /** Removing a value just written restores the configuration exactly when the path was free. */
  lemma WriteThenRemoveIff(config: Config, path: Path, value: Value)
    requires path != []
    ensures Assign(Assign(config, path, Some(value)), path, None) == config <==>
            Get(config, path) == None && !Blocked(config, path)
  {
    LastChangeWins(config, path, Some(value), None);
    RemovalIsNoOpIff(config, path);
  }

  predicate Apart(p: Path, q: Path) {
    !(p <= q) && !(q <= p)
  }

  /** A change leaves every path alone that is neither above nor below it. */
  lemma {:induction false} OthersKeep(config: Config, path: Path, value: Option<Value>, other: Path)
    requires path != [] && other != [] && Apart(path, other)
    ensures Get(Assign(config, path, value), other) == Get(config, other)
    decreases |path|
  {
    if |path| > 1 && path[0] == other[0] {
      assert path == [path[0]] + path[1..] && other == [other[0]] + other[1..];
      assert |other| > 1;
      OthersKeep(Child(config, path[0]), path[1..], value, other[1..]);
      NothingInside(other[1..]);
    }
  }

  // ---------------------------------------------------------------- a list of changes

  /** What the YAML loader makes of a text; None is `null`. */
  datatype Loaded = Loaded(value: Option<Value>) | Malformed

  type Loader = string -> Loaded

  datatype Outcome = Applied(config: Config) | InvalidSetting(pair: Option<string>) | InvalidYaml(text: string)

  function FirstIndex(s: string, c: char): (i: nat)
    requires c in s
    ensures i < |s| && s[i] == c && c !in s[..i]
  {
    if s[0] == c then 0 else 1 + FirstIndex(s[1..], c)
  }

  predicate Paired(pair: Option<string>) {
    pair.Some? && '=' in pair.value
  }

  function PathOf(pair: string): (path: Path)
    requires '=' in pair
    ensures path != []
  {
    Split(Strip(pair[..FirstIndex(pair, '=')]), '.')
  }

  function ValueText(pair: string): string
    requires '=' in pair
  {
    pair[FirstIndex(pair, '=') + 1..]
  }

  function Changed(config: Config, pairs: seq<Option<string>>, load: Loader): Outcome
    decreases |pairs|
  {
    if pairs == [] then Applied(config)
    else if !Paired(pairs[0]) then InvalidSetting(pairs[0])
    else
      var pair := pairs[0].value;
      match load(ValueText(pair))
      case Malformed => InvalidYaml(ValueText(pair))
      case Loaded(value) => Changed(Assign(config, Effective(PathOf(pair)), value), pairs[1..], load)
  }

  /** `apply_config_changes`, up to the formatting of the result. */
  method ApplyConfigChanges(data: Config, kvpairs: seq<Option<string>>, load: Loader) returns (outcome: Outcome)
    ensures outcome == Changed(data, kvpairs, load)
  {
    var changedData := data;
    for i := 0 to |kvpairs|
      invariant Changed(data, kvpairs, load) == Changed(changedData, kvpairs[i..], load)
    {
      var pair := kvpairs[i];
      if pair == None || pair == Some("") || '=' !in pair.value {
        return InvalidSetting(pair);
      }
      match load(ValueText(pair.value))
      case Malformed =>
        return InvalidYaml(ValueText(pair.value));
      case Loaded(value) =>
        changedData := SetPathValue(changedData, PathOf(pair.value), value, []);
    }
    return Applied(changedData);
  }

  predicate Acceptable(pair: Option<string>, load: Loader) {
    Paired(pair) && load(ValueText(pair.value)).Loaded?
  }

  /** All changes go through, or none: one bad pair anywhere refuses the list. */
  lemma {:induction false} AppliedIff(config: Config, pairs: seq<Option<string>>, load: Loader)
    ensures Changed(config, pairs, load).Applied? <==> forall p <- pairs :: Acceptable(p, load)
    decreases |pairs|
  {
    if pairs != [] && Acceptable(pairs[0], load) {
      var pair := pairs[0].value;
      AppliedIff(Assign(config, Effective(PathOf(pair)), load(ValueText(pair)).value), pairs[1..], load);
      assert forall p <- pairs :: p == pairs[0] || p in pairs[1..];
    }
  }

  /** A path apart from every path named in the list keeps its value. */
  lemma {:induction false} UnnamedPathsKeep(config: Config, pairs: seq<Option<string>>, load: Loader, other: Path)
    requires Changed(config, pairs, load).Applied? && other != []
    requires forall p <- pairs :: Paired(p) ==> Apart(Effective(PathOf(p.value)), other)
    ensures Get(Changed(config, pairs, load).config, other) == Get(config, other)
    decreases |pairs|
  {
    if pairs != [] {
      var pair := pairs[0].value;
      var value := load(ValueText(pair)).value;
      assert pairs[0] in pairs;
      OthersKeep(config, Effective(PathOf(pair)), value, other);
      UnnamedPathsKeep(Assign(config, Effective(PathOf(pair)), value), pairs[1..], load, other);
    }
  }

  /** The last change named for a path stands, whatever came before and whatever is done to paths
      apart from it afterwards. */
  lemma {:induction false} LastNamedStands(config: Config, pairs: seq<Option<string>>, load: Loader, i: nat)
    requires Changed(config, pairs, load).Applied? && i < |pairs| && Acceptable(pairs[i], load)
    requires forall p <- pairs[i + 1..] :: Paired(p) ==>
               Apart(Effective(PathOf(p.value)), Effective(PathOf(pairs[i].value)))
    ensures Get(Changed(config, pairs, load).config, Effective(PathOf(pairs[i].value)))
            == load(ValueText(pairs[i].value)).value
    decreases |pairs|
  {
    var pair := pairs[0].value;
    var value := load(ValueText(pair)).value;
    var after := Assign(config, Effective(PathOf(pair)), value);
    if i == 0 {
      if value == None {
        RemovalRemoves(config, Effective(PathOf(pair)));
      } else {
        WriteIsReadable(config, Effective(PathOf(pair)), value.value);
      }
      UnnamedPathsKeep(after, pairs[1..], load, Effective(PathOf(pair)));
    } else {
      assert pairs[1..][i - 1] == pairs[i] && pairs[1..][i..] == pairs[i + 1..];
      LastNamedStands(after, pairs[1..], load, i - 1);
    }
  }

  // ---------------------------------------------------------------- server parameters

  lemma {:induction false} JoinSplit(s: string, sep: char)
    ensures Join(Split(s, sep), sep) == s
    decreases |s|
  {
    if s != "" {
      JoinSplit(s[1..], sep);
      var rest := Split(s[1..], sep);
      if s[0] == sep {
        assert ([""] + rest)[1..] == rest;
      } else if |rest| > 1 {
        assert ([[s[0]] + rest[0]] + rest[1..])[1..] == rest[1..];
      }
    }
  }

  lemma PartsOf(key: string, text: string)
    requires '=' !in key && Trimmed(key)
    ensures '=' in key + "=" + text
    ensures PathOf(key + "=" + text) == Split(key, '.') && ValueText(key + "=" + text) == text
  {
    var pair := key + "=" + text;
    assert pair[|key|] == '=' && forall i :: 0 <= i < |key| ==> pair[i] == key[i] && key[i] != '=';
    assert FirstIndex(pair, '=') == |key|;
    assert pair[..|key|] == key;
    StripTrims(key);
  }

  lemma PathOfParameter(name: string)
    ensures Effective(Split("postgresql" + "." + ("parameters" + "." + name), '.')) == PARAMETERS + [name]
  {
    SplitHead("postgresql", "parameters" + "." + name, '.');
    SplitHead("parameters", name, '.');
    JoinSplit(name, '.');
    var path := Split("postgresql" + "." + ("parameters" + "." + name), '.');
    assert path[2..] == Split(name, '.') && path[..2] == PARAMETERS;
  }

  /** Whatever dots its name has, a server parameter is one key below `postgresql.parameters`. */
  lemma ParameterIsOneKey(name: string, text: string)
    requires '=' !in name && Trimmed("." + name)
    ensures
      var pair := "postgresql" + "." + ("parameters" + "." + name) + "=" + text;
      '=' in pair && Effective(PathOf(pair)) == PARAMETERS + [name] && ValueText(pair) == text
  {
    var key := "postgresql" + "." + ("parameters" + "." + name);
    assert key[|key| - 1] == ("." + name)[|name|];
    PartsOf(key, text);
    PathOfParameter(name);
  }

  // ---------------------------------------------------------------- all other settings

  /** The path leads to something below `postgresql.parameters`. */
  predicate BelowParameters(path: Path) {
    |path| > 2 && path[0] == "postgresql" && path[1] == "parameters"
  }

  /** Only paths below the server parameters are flattened. */
  lemma EffectiveMeans(path: Path)
    ensures Effective(path) == if BelowParameters(path) then PARAMETERS + [Join(path[2..], '.')] else path
  {
    if |path| > 2 {
      assert path[..2] == [path[0], path[1]];
    }
  }

  lemma NoneOf(pieces: seq<string>, sep: char, c: char)
    requires c != sep && forall p <- pieces :: c !in p
    ensures c !in Join(pieces, sep)
    decreases |pieces|
  {
    if |pieces| > 1 {
      NoneOf(pieces[1..], sep, c);
    }
  }

  /** Written with dots, the names of any other setting are its path, one level each; those of a
      server parameter become its last name. */
  lemma DottedKeyIsItsPath(names: Path, text: string)
    requires names != [] && (forall n <- names :: '.' !in n && '=' !in n) && Trimmed(Join(names, '.'))
    ensures
      var pair := Join(names, '.') + "=" + text;
      && '=' in pair && PathOf(pair) == names && ValueText(pair) == text
      && Effective(names) == if BelowParameters(names) then PARAMETERS + [Join(names[2..], '.')] else names
  {
    NoneOf(names, '.', '=');
    PartsOf(Join(names, '.'), text);
    SplitJoin(names, '.');
    EffectiveMeans(names);
  }

  /** Blanks around the key make no difference. */
  lemma KeyBlanksIgnored(left: string, key: string, right: string, text: string)
    requires AllBlank(left) && AllBlank(right) && '=' !in left + key + right && Trimmed(key)
    ensures '=' in left + key + right + "=" + text && PathOf(left + key + right + "=" + text) == Split(key, '.')
    ensures ValueText(left + key + right + "=" + text) == text
  {
    var all := left + key + right;
    var pair := all + "=" + text;
    assert pair[|all|] == '=' && forall i :: 0 <= i < |all| ==> pair[i] == all[i] && all[i] != '=';
    assert FirstIndex(pair, '=') == |all| && pair[..|all|] == all;
    StripRemoves(left, key, right);
  }

  /** Such a setting given as one pair is found at exactly its path. */
  lemma DottedSettingIsFound(config: Config, names: Path, text: string, value: Value, load: Loader)
    requires names != [] && (forall n <- names :: '.' !in n && '=' !in n) && Trimmed(Join(names, '.'))
    requires !BelowParameters(names) && load(text) == Loaded(Some(value))
    ensures
      var outcome := Changed(config, [Some(Join(names, '.') + "=" + text)], load);
      outcome.Applied? && Get(outcome.config, names) == Some(value)
  {
    var pair := Join(names, '.') + "=" + text;
    DottedKeyIsItsPath(names, text);
    WriteIsReadable(config, names, value);
    assert [Some(pair)][1..] == [];
    assert Changed(config, [Some(pair)], load) == Changed(Assign(config, names, Some(value)), [], load);
  }

  /** The first bad pair is the one reported, as invalid if it has no equals sign, and else for its
      value. */
  lemma {:induction false} FirstBadIsReported(config: Config, pairs: seq<Option<string>>, load: Loader, i: nat)
    requires i < |pairs| && !Acceptable(pairs[i], load) && forall k :: 0 <= k < i ==> Acceptable(pairs[k], load)
    ensures Changed(config, pairs, load) ==
      if pairs[i].Some? && '=' in pairs[i].value then InvalidYaml(ValueText(pairs[i].value)) else InvalidSetting(pairs[i])
    decreases i
  {
    if i > 0 {
      assert Acceptable(pairs[0], load);
      var pair := pairs[0].value;
      forall k | 0 <= k < i - 1 ensures Acceptable(pairs[1..][k], load) {
        assert pairs[1..][k] == pairs[k + 1];
      }
      FirstBadIsReported(Assign(config, Effective(PathOf(pair)), load(ValueText(pair)).value), pairs[1..], load, i - 1);
    }
  }
}
