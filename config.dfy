/** Configuration values as the Python code sees them (the result of
    `json.load`, or a dictionary built by a caller) and `SecurityConfig`,
    whose `get` walks a dotted key path and falls back to a default. */
module Config {
  import opened Text

  /** A JSON-shaped Python value. `Null` is Python's `None`. */
  datatype Value =
    | Null
    | Bool(b: bool)
    | Int(i: int)
    | Num(r: real)
    | Str(s: string)
    | List(items: seq<Value>)
    | Dict(entries: map<string, Value>)

  /** Python truthiness (`if value:`). */
  predicate Truthy(v: Value)
  {
    match v
    case Null => false
    case Bool(b) => b
    case Int(i) => i != 0
    case Num(r) => r != 0.0
    case Str(s) => s != []
    case List(items) => items != []
    case Dict(entries) => entries != map[]
  }

  /** The strings a `for x in value` loop visits when each `x` must be a
      string: the items of a list of strings, or the one-character strings
      of a string. `None` for anything else (a dictionary, whose keys come
      in insertion order, is not modelled). */
  function StringItems(v: Value): Option<seq<string>>
  {
    match v
    case List(items) =>
      if forall i :: 0 <= i < |items| ==> items[i].Str? then
        Some(seq(|items|, i requires 0 <= i < |items| => items[i].s))
      else None
    case Str(s) => Some(seq(|s|, i requires 0 <= i < |s| => [s[i]]))
    case _ => None
  }

  /** A Python list of strings. */
  function StrList(xs: seq<string>): (v: Value)
    ensures v.List? && |v.items| == |xs|
    ensures forall i :: 0 <= i < |xs| ==> v.items[i] == Str(xs[i])
  {
    List(seq(|xs|, i requires 0 <= i < |xs| => Str(xs[i])))
  }

  /** Iterating a list of strings gives back the strings. */
  lemma StrListItems(xs: seq<string>)
    ensures StringItems(StrList(xs)) == Some(xs)
  {
    var v := StrList(xs);
    assert forall i :: 0 <= i < |v.items| ==> v.items[i].Str?;
    assert StringItems(v).value == xs;
  }

  /** Python's `d.get(k, default)` on a dictionary. */
  function DictGet(d: map<string, Value>, k: string, default: Value): (r: Value)
    ensures k in d ==> r == d[k]
    ensures k !in d ==> r == default
  {
    if k in d then d[k] else default
  }

  /** The value reached by following `keys` through nested dictionaries,
      with no defaults involved; `None` when some step is missing. */
  function PathValue(v: Value, keys: seq<string>): Option<Value>
  {
    if keys == [] then Some(v)
    else match v
      case Dict(d) => if keys[0] in d then PathValue(d[keys[0]], keys[1..]) else None
      case _ => None
  }

  datatype Option<T> = None | Some(value: T)

  /** The loop of `SecurityConfig.get` as a recursive function: at each
      step a dictionary is indexed with `get(k, default)`; a non-dictionary
      ends the walk with the default. */
  function Walk(v: Value, keys: seq<string>, default: Value): Value
    decreases |keys|
  {
    if keys == [] then v
    else match v
      case Dict(d) => Walk(DictGet(d, keys[0], default), keys[1..], default)
      case _ => default
  }

  /** `SecurityConfig.get(key, default)` over the loaded configuration. */
  function Get(config: Value, key: string, default: Value): (r: Value)
  {
    var v := Walk(config, Split(key, "."), default);
    if v == Null then default else v
  }

  /** The same lookup written as the source's loop. */
  method GetValue(config: Value, key: string, default: Value) returns (r: Value)
    ensures r == Get(config, key, default)
  {
    var keys := Split(key, ".");
    var value := config;
    var i := 0;
    while i < |keys|
      invariant 0 <= i <= |keys|
      invariant Walk(config, keys, default) == Walk(value, keys[i..], default)
    {
      if value.Dict? {
        value := DictGet(value.entries, keys[i], default);
      } else {
        return default;
      }
      i := i + 1;
    }
    r := if value == Null then default else value;
  }

  /** A path present in the configuration is followed to its end. */
  lemma {:induction false} WalkFoundPath(v: Value, keys: seq<string>, default: Value, found: Value)
    requires PathValue(v, keys) == Some(found)
    ensures Walk(v, keys, default) == found
    decreases keys
  {
    if keys != [] {
      WalkFoundPath(v.entries[keys[0]], keys[1..], default, found);
    }
  }

  /** A value present along the whole path, and not `None`, is returned. */
  lemma GetFound(config: Value, key: string, default: Value, found: Value)
    requires PathValue(config, Split(key, ".")) == Some(found) && found != Null
    ensures Get(config, key, default) == found
  {
    WalkFoundPath(config, Split(key, "."), default, found);
  }

  /** A missing step makes the lookup return the default, provided the
      default is not itself a dictionary. */
  lemma {:induction false} WalkMissing(v: Value, keys: seq<string>, default: Value)
    requires PathValue(v, keys) == None && !default.Dict?
    ensures Walk(v, keys, default) == default
    decreases keys
  {
    match v
    case Dict(d) =>
      if keys[0] in d {
        WalkMissing(d[keys[0]], keys[1..], default);
      }
    case _ =>
  }

  lemma GetMissing(config: Value, key: string, default: Value)
    requires PathValue(config, Split(key, ".")) == None && !default.Dict?
    ensures Get(config, key, default) == default
  {
    WalkMissing(config, Split(key, "."), default);
  }

  /** The lookup falls back to its default exactly when the path is missing
      or holds `None` (for a default that is not a dictionary or `None`). */
  lemma GetIsDefaultIff(config: Value, key: string, default: Value)
    requires !default.Dict? && default != Null
    ensures var p := PathValue(config, Split(key, "."));
            (p.None? || p.value == Null || p.value == default) <==> Get(config, key, default) == default
  {
    var p := PathValue(config, Split(key, "."));
    if p.None? {
      GetMissing(config, key, default);
    } else {
      WalkFoundPath(config, Split(key, "."), default, p.value);
    }
  }

  /** A dictionary default is walked into by the remaining keys:
      `get('a.b', {'b': 1})` on an empty configuration yields 1. */
  lemma DictionaryDefaultIsWalked()
    ensures Get(Dict(map[]), "a.b", Dict(map["b" := Int(1)])) == Int(1)
  {
    assert Split([], ".") == [[]];
    assert "b"[1..] == [] && "b"[..1][0] != "."[0];
    var rest := Split([], ".");
    assert Split("b", ".") == [['b'] + rest[0]] + rest[1..];
    assert rest == [[]] && ['b'] + rest[0] == "b" && rest[1..] == [];
    assert Split("b", ".") == ["b"];
    assert ".b"[1..] == "b";
    assert Split(".b", ".") == [[]] + Split("b", ".");
    assert "a.b"[1..] == ".b" && "a.b"[..1][0] != "."[0];
    var rest2 := Split(".b", ".");
    assert Split("a.b", ".") == [['a'] + rest2[0]] + rest2[1..];
    assert rest2 == [[], "b"] && ['a'] + rest2[0] == "a" && rest2[1..] == ["b"];
    assert Split("a.b", ".") == ["a", "b"];
  }

  /** The value under `section.name`, looked up as `SecurityConfig.get` does. */
  function Setting(config: Value, section: string, name: string, default: Value): Value
  {
    Get(config, section + "." + name, default)
  }

  /** A two-part key reads the nested dictionary entry when it is present
      and not `None`, and the default otherwise. */
  lemma SettingLookup(config: Value, section: string, name: string, default: Value)
    requires '.' !in section && '.' !in name && !default.Dict?
    ensures Setting(config, section, name, default) ==
              match PathValue(config, [section, name])
              case Some(v) => if v == Null then default else v
              case None => default
  {
    assert "." == ['.'];
    SplitPair(section, '.', name);
    match PathValue(config, [section, name])
    case Some(v) => WalkFoundPath(config, [section, name], default, v);
    case None => GetMissing(config, section + "." + name, default);
  }

  /** The configuration `SecurityConfig` falls back to when no file is found. */
  function DefaultConfig(): Value
  {
    Dict(map[
      "content_limits" := Dict(DefaultContentLimitsEntries()),
      "malicious_patterns" := Dict(DefaultMaliciousPatternsEntries()),
      "url_detection" := Dict(DefaultUrlDetectionEntries()),
      "sanitization" := Dict(DefaultSanitizationEntries())])
  }

  /** Its sections, one function each. */
  function DefaultContentLimitsEntries(): map<string, Value>
  {
    map[
      "max_reflection_length_chars" := Int(10000),
      "max_reflection_length_words" := Int(2000),
      "min_reflection_length_chars" := Int(100),
      "min_reflection_length_words" := Int(50)]
  }

  function DefaultMaliciousPatternsEntries(): map<string, Value>
  {
    map[
      "enabled" := Bool(true),
      "patterns" := List([
        Str(ScriptTagSource),
        Str(JavascriptSchemeSource),
        Str(EventHandlerSource)])]
  }

  function DefaultUrlDetectionEntries(): map<string, Value>
  {
    map[
      "enabled" := Bool(true),
      "max_urls_allowed" := Int(0),
      "block_all_urls" := Bool(true)]
  }

  function DefaultSanitizationEntries(): map<string, Value>
  {
    map[
      "enabled" := Bool(true),
      "html_escape_all" := Bool(true),
      "remove_control_chars" := Bool(true)]
  }

  const ScriptTagSource: string := "(?i)<script[^>]*>"
  const JavascriptSchemeSource: string := "(?i)javascript:"
  const EventHandlerSource: string := "(?i)on(?:load|error|click|mouse|key)\\s*="
  const WebAddressSource: string := "(?:https?://|www\\.)\\S+"
}
