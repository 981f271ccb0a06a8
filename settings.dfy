/** The settings the sanitiser and the four checks read from a
    `SecurityConfig`, each looked up with the default the source passes to
    `get`, and typed. */
module Settings {
  import opened Text
  import opened Config
  import opened Patterns

  datatype SecuritySettings = SecuritySettings(
    sanitizationEnabled: bool,
    removeControlChars: bool,
    stripInvisibleChars: bool,
    normalizeWhitespace: bool,
    maxConsecutiveNewlines: nat,    // 0 switches the newline cap off
    patternsEnabled: bool,
    criticalPatterns: seq<Pattern>,
    suspiciousPatterns: seq<Pattern>,
    urlEnabled: bool,
    urlPattern: Pattern,
    maxUrlsAllowed: int,
    blockAllUrls: bool,
    suspiciousDomains: seq<string>,
    maxChars: int,
    maxWords: int,
    minChars: int,
    minWords: int,
    characterEnabled: bool,
    maxConsecutiveSameChar: nat,
    blockHomoglyphs: bool,
    engine: Engine)

  function AsInt(v: Value): Option<int>
  {
    if v.Int? then Some(v.i) else None
  }

  function AsCount(v: Value): Option<nat>
  {
    if v.Int? && v.i >= 0 then Some(v.i) else None
  }

  /** The run limit that `str(max_consecutive)` spells inside `(.)\1{…,}`:
      a non-negative integer, or a string that is the canonical decimal
      spelling of one, which gives the same pattern and the same message. */
  function RunLimit(v: Value): (r: Option<nat>)
    ensures r.Some? <==>
              (v.Int? && v.i >= 0)
              || (v.Str? && (forall i :: 0 <= i < |v.s| ==> '0' <= v.s[i] <= '9')
                  && NatToString(DigitsValue(v.s)) == v.s)
    ensures r.Some? && v.Int? ==> r.value == v.i
    ensures r.Some? && v.Str? ==> NatToString(r.value) == v.s
  {
    match v
    case Int(i) => if i >= 0 then Some(i) else None
    case Str(s) =>
      if (forall i :: 0 <= i < |s| ==> '0' <= s[i] <= '9') && NatToString(DigitsValue(s)) == s
      then Some(DigitsValue(s))
      else None
    case _ => None
  }

  /** Every limit written as the decimal string of a number is read as
      that number, as the integer itself is. */
  lemma DecimalRunLimit(n: nat)
    ensures RunLimit(Str(NatToString(n))) == RunLimit(Int(n)) == Some(n)
  {
    NatToStringRoundTrip(n);
  }

  function AsString(v: Value): Option<string>
  {
    if v.Str? then Some(v.s) else None
  }

  /** `[re.compile(p, flags) for p in sources]`. */
  function CompileAll(sources: seq<string>, ignoreCase: bool): (ps: seq<Pattern>)
    ensures |ps| == |sources|
    ensures forall i :: 0 <= i < |sources| ==> ps[i] == Compile(sources[i], ignoreCase)
  {
    seq(|sources|, i requires 0 <= i < |sources| => Compile(sources[i], ignoreCase))
  }

  /** The configuration values the settings are read from, each looked up
      with its default. */
  datatype RawSettings = RawSettings(
    sanitizationEnabled: Value,
    removeControlChars: Value,
    stripInvisibleChars: Value,
    normalizeWhitespace: Value,
    maxConsecutiveNewlines: Value,
    patternsEnabled: Value,
    criticalPatterns: Value,
    suspiciousPatterns: Value,
    urlEnabled: Value,
    urlPattern: Value,
    maxUrlsAllowed: Value,
    blockAllUrls: Value,
    suspiciousDomains: Value,
    maxChars: Value,
    maxWords: Value,
    minChars: Value,
    minWords: Value,
    characterEnabled: Value,
    maxConsecutiveSameChar: Value,
    blockHomoglyphs: Value)

  /** The `config.get(key, default)` calls behind the settings. */
  function Raw(cfg: Value): RawSettings
  {
    RawSettings(
      Setting(cfg, "sanitization", "enabled", Bool(true)),
      Setting(cfg, "sanitization", "remove_control_chars", Bool(true)),
      Setting(cfg, "sanitization", "strip_invisible_chars", Bool(true)),
      Setting(cfg, "sanitization", "normalize_whitespace", Bool(true)),
      Setting(cfg, "sanitization", "max_consecutive_newlines", Int(3)),
      Setting(cfg, "malicious_patterns", "enabled", Bool(true)),
      Setting(cfg, "malicious_patterns", "patterns", List([])),
      Setting(cfg, "malicious_patterns", "suspicious_patterns", List([])),
      Setting(cfg, "url_detection", "enabled", Bool(true)),
      Setting(cfg, "url_detection", "url_pattern", Str(WebAddressSource)),
      Setting(cfg, "url_detection", "max_urls_allowed", Int(0)),
      Setting(cfg, "url_detection", "block_all_urls", Bool(true)),
      Setting(cfg, "url_detection", "suspicious_domains", List([])),
      Setting(cfg, "content_limits", "max_reflection_length_chars", Int(10000)),
      Setting(cfg, "content_limits", "max_reflection_length_words", Int(2000)),
      Setting(cfg, "content_limits", "min_reflection_length_chars", Int(100)),
      Setting(cfg, "content_limits", "min_reflection_length_words", Int(50)),
      Setting(cfg, "character_validation", "enabled", Bool(true)),
      Setting(cfg, "character_validation", "max_consecutive_same_char", Int(50)),
      Setting(cfg, "character_validation", "block_homoglyphs", Bool(true)))
  }

  /** The typed settings, or `None` when a numeric setting is not a
      (non-negative, where a count is meant) integer, the URL pattern is not
      a string, or a pattern or domain setting is neither a string nor a
      list of strings (a string is iterated one character at a time). Every
      number read back is the integer written in the configuration, every
      switch is the truthiness of its value, the pattern lists are the
      compiled sources and the URL pattern is compiled case-insensitively. */
  function Typed(raw: RawSettings, engine: Engine): (r: Option<SecuritySettings>)
    ensures r.None? <==>
              || !(raw.maxConsecutiveNewlines.Int? && raw.maxConsecutiveNewlines.i >= 0)
              || RunLimit(raw.maxConsecutiveSameChar).None?
              || !raw.maxUrlsAllowed.Int? || !raw.maxChars.Int? || !raw.maxWords.Int?
              || !raw.minChars.Int? || !raw.minWords.Int? || !raw.urlPattern.Str?
              || StringItems(raw.criticalPatterns).None? || StringItems(raw.suspiciousPatterns).None?
              || StringItems(raw.suspiciousDomains).None?
    ensures r.Some? ==>
              && raw.maxConsecutiveNewlines == Int(r.value.maxConsecutiveNewlines)
              && RunLimit(raw.maxConsecutiveSameChar) == Some(r.value.maxConsecutiveSameChar)
              && raw.maxUrlsAllowed == Int(r.value.maxUrlsAllowed)
              && raw.maxChars == Int(r.value.maxChars) && raw.maxWords == Int(r.value.maxWords)
              && raw.minChars == Int(r.value.minChars) && raw.minWords == Int(r.value.minWords)
    ensures r.Some? ==>
              && r.value.sanitizationEnabled == Truthy(raw.sanitizationEnabled)
              && r.value.removeControlChars == Truthy(raw.removeControlChars)
              && r.value.stripInvisibleChars == Truthy(raw.stripInvisibleChars)
              && r.value.normalizeWhitespace == Truthy(raw.normalizeWhitespace)
              && r.value.patternsEnabled == Truthy(raw.patternsEnabled)
              && r.value.urlEnabled == Truthy(raw.urlEnabled)
              && r.value.blockAllUrls == Truthy(raw.blockAllUrls)
              && r.value.characterEnabled == Truthy(raw.characterEnabled)
              && r.value.blockHomoglyphs == Truthy(raw.blockHomoglyphs)
    ensures r.Some? ==>
              && r.value.criticalPatterns == CompileAll(StringItems(raw.criticalPatterns).value, false)
              && r.value.suspiciousPatterns == CompileAll(StringItems(raw.suspiciousPatterns).value, false)
              && r.value.urlPattern == Compile(raw.urlPattern.s, true)
              && r.value.suspiciousDomains == StringItems(raw.suspiciousDomains).value
              && r.value.engine == engine
  {
    var newlines := AsCount(raw.maxConsecutiveNewlines);
    var critical := StringItems(raw.criticalPatterns);
    var suspicious := StringItems(raw.suspiciousPatterns);
    var urlSource := AsString(raw.urlPattern);
    var maxUrls := AsInt(raw.maxUrlsAllowed);
    var domains := StringItems(raw.suspiciousDomains);
    var maxChars := AsInt(raw.maxChars);
    var maxWords := AsInt(raw.maxWords);
    var minChars := AsInt(raw.minChars);
    var minWords := AsInt(raw.minWords);
    var maxRun := RunLimit(raw.maxConsecutiveSameChar);
    if newlines.None? || critical.None? || suspicious.None? || urlSource.None? || maxUrls.None?
       || domains.None? || maxChars.None? || maxWords.None? || minChars.None? || minWords.None?
       || maxRun.None?
    then None
    else Some(SecuritySettings(
      Truthy(raw.sanitizationEnabled),
      Truthy(raw.removeControlChars),
      Truthy(raw.stripInvisibleChars),
      Truthy(raw.normalizeWhitespace),
      newlines.value,
      Truthy(raw.patternsEnabled),
      CompileAll(critical.value, false),
      CompileAll(suspicious.value, false),
      Truthy(raw.urlEnabled),
      Compile(urlSource.value, true),
      maxUrls.value,
      Truthy(raw.blockAllUrls),
      domains.value,
      maxChars.value,
      maxWords.value,
      minChars.value,
      minWords.value,
      Truthy(raw.characterEnabled),
      maxRun.value,
      Truthy(raw.blockHomoglyphs),
      engine))
  }

  /** A pattern setting written as a string is compiled one character at
      a time, as `[re.compile(p) for p in patterns]` iterates it. */
  lemma StringPatternsAreCharacters(raw: RawSettings, engine: Engine, s: string)
    requires raw.criticalPatterns == Str(s) && Typed(raw, engine).Some?
    ensures |Typed(raw, engine).value.criticalPatterns| == |s|
    ensures forall i :: 0 <= i < |s| ==> Typed(raw, engine).value.criticalPatterns[i] == Compile([s[i]], false)
  {
  }

  /** The settings a configuration yields. */
  function SettingsOf(cfg: Value, engine: Engine): Option<SecuritySettings>
  {
    Typed(Raw(cfg), engine)
  }

  /** The settings of the built-in default configuration. */
  function DefaultSettings(engine: Engine): SecuritySettings
  {
    SecuritySettings(
      true, true, true, true, 3,
      true, [ScriptTag, JavascriptScheme, EventHandler], [],
      true, WebAddress, 0, true, [],
      10000, 2000, 100, 50,
      true, 50, true,
      engine)
  }

  /** A setting under a section that is a dictionary: the entry when it is
      present and not `None`, the call's default otherwise. */
  lemma SectionLookup(cfg: Value, section: string, entries: map<string, Value>, name: string, default: Value)
    requires cfg.Dict? && section in cfg.entries && cfg.entries[section] == Dict(entries)
    requires '.' !in section && '.' !in name && !default.Dict?
    ensures Setting(cfg, section, name, default) ==
              if name in entries && entries[name] != Null then entries[name] else default
  {
    SettingLookup(cfg, section, name, default);
    assert [section, name][1..] == [name] && [name][1..] == [];
    assert PathValue(cfg, [section, name]) == PathValue(Dict(entries), [name]);
    if name in entries {
      assert PathValue(Dict(entries), [name]) == PathValue(entries[name], []);
    }
  }

  /** A setting under a section the configuration does not have is the
      call's default. */
  lemma MissingSectionLookup(cfg: Value, section: string, name: string, default: Value)
    requires cfg.Dict? && section !in cfg.entries
    requires '.' !in section && '.' !in name && !default.Dict?
    ensures Setting(cfg, section, name, default) == default
  {
    SettingLookup(cfg, section, name, default);
  }

  /** The raw settings of the default configuration, one key at a time:
      each entry the default configuration holds, and the default of the
      call for each key it does not hold (it has no `character_validation`
      section at all). One lemma per key keeps each proof small. */
  lemma DefaultSanitizationEnabled()
    ensures Setting(DefaultConfig(), "sanitization", "enabled", Bool(true)) == Bool(true)
  {
    SectionLookup(DefaultConfig(), "sanitization", DefaultSanitizationEntries(), "enabled", Bool(true));
  }

  lemma DefaultSanitizationRemoveControlChars()
    ensures Setting(DefaultConfig(), "sanitization", "remove_control_chars", Bool(true)) == Bool(true)
  {
    SectionLookup(DefaultConfig(), "sanitization", DefaultSanitizationEntries(), "remove_control_chars", Bool(true));
  }

  lemma DefaultSanitizationStripInvisibleChars()
    ensures Setting(DefaultConfig(), "sanitization", "strip_invisible_chars", Bool(true)) == Bool(true)
  {
    SectionLookup(DefaultConfig(), "sanitization", DefaultSanitizationEntries(), "strip_invisible_chars", Bool(true));
  }

  lemma DefaultSanitizationNormalizeWhitespace()
    ensures Setting(DefaultConfig(), "sanitization", "normalize_whitespace", Bool(true)) == Bool(true)
  {
    SectionLookup(DefaultConfig(), "sanitization", DefaultSanitizationEntries(), "normalize_whitespace", Bool(true));
  }

  lemma DefaultSanitizationMaxConsecutiveNewlines()
    ensures Setting(DefaultConfig(), "sanitization", "max_consecutive_newlines", Int(3)) == Int(3)
  {
    SectionLookup(DefaultConfig(), "sanitization", DefaultSanitizationEntries(), "max_consecutive_newlines", Int(3));
  }

  lemma DefaultMaliciousPatternsEnabled()
    ensures Setting(DefaultConfig(), "malicious_patterns", "enabled", Bool(true)) == Bool(true)
  {
    SectionLookup(DefaultConfig(), "malicious_patterns", DefaultMaliciousPatternsEntries(), "enabled", Bool(true));
  }

  lemma DefaultMaliciousPatternsPatterns()
    ensures Setting(DefaultConfig(), "malicious_patterns", "patterns", List([])) == List([Str(ScriptTagSource), Str(JavascriptSchemeSource), Str(EventHandlerSource)])
  {
    SectionLookup(DefaultConfig(), "malicious_patterns", DefaultMaliciousPatternsEntries(), "patterns", List([]));
  }

  lemma DefaultMaliciousPatternsSuspiciousPatterns()
    ensures Setting(DefaultConfig(), "malicious_patterns", "suspicious_patterns", List([])) == List([])
  {
    SectionLookup(DefaultConfig(), "malicious_patterns", DefaultMaliciousPatternsEntries(), "suspicious_patterns", List([]));
  }

  lemma DefaultUrlDetectionEnabled()
    ensures Setting(DefaultConfig(), "url_detection", "enabled", Bool(true)) == Bool(true)
  {
    SectionLookup(DefaultConfig(), "url_detection", DefaultUrlDetectionEntries(), "enabled", Bool(true));
  }

  lemma DefaultUrlDetectionUrlPattern()
    ensures Setting(DefaultConfig(), "url_detection", "url_pattern", Str(WebAddressSource)) == Str(WebAddressSource)
  {
    SectionLookup(DefaultConfig(), "url_detection", DefaultUrlDetectionEntries(), "url_pattern", Str(WebAddressSource));
  }

  lemma DefaultUrlDetectionMaxUrlsAllowed()
    ensures Setting(DefaultConfig(), "url_detection", "max_urls_allowed", Int(0)) == Int(0)
  {
    SectionLookup(DefaultConfig(), "url_detection", DefaultUrlDetectionEntries(), "max_urls_allowed", Int(0));
  }

  lemma DefaultUrlDetectionBlockAllUrls()
    ensures Setting(DefaultConfig(), "url_detection", "block_all_urls", Bool(true)) == Bool(true)
  {
    SectionLookup(DefaultConfig(), "url_detection", DefaultUrlDetectionEntries(), "block_all_urls", Bool(true));
  }

  lemma DefaultUrlDetectionSuspiciousDomains()
    ensures Setting(DefaultConfig(), "url_detection", "suspicious_domains", List([])) == List([])
  {
    SectionLookup(DefaultConfig(), "url_detection", DefaultUrlDetectionEntries(), "suspicious_domains", List([]));
  }

  lemma DefaultContentLimitsMaxChars()
    ensures Setting(DefaultConfig(), "content_limits", "max_reflection_length_chars", Int(10000)) == Int(10000)
  {
    SectionLookup(DefaultConfig(), "content_limits", DefaultContentLimitsEntries(), "max_reflection_length_chars", Int(10000));
  }

  lemma DefaultContentLimitsMaxWords()
    ensures Setting(DefaultConfig(), "content_limits", "max_reflection_length_words", Int(2000)) == Int(2000)
  {
    SectionLookup(DefaultConfig(), "content_limits", DefaultContentLimitsEntries(), "max_reflection_length_words", Int(2000));
  }

  lemma DefaultContentLimitsMinChars()
    ensures Setting(DefaultConfig(), "content_limits", "min_reflection_length_chars", Int(100)) == Int(100)
  {
    SectionLookup(DefaultConfig(), "content_limits", DefaultContentLimitsEntries(), "min_reflection_length_chars", Int(100));
  }

  lemma DefaultContentLimitsMinWords()
    ensures Setting(DefaultConfig(), "content_limits", "min_reflection_length_words", Int(50)) == Int(50)
  {
    SectionLookup(DefaultConfig(), "content_limits", DefaultContentLimitsEntries(), "min_reflection_length_words", Int(50));
  }

  lemma DefaultCharacterValidationEnabled()
    ensures Setting(DefaultConfig(), "character_validation", "enabled", Bool(true)) == Bool(true)
  {
    MissingSectionLookup(DefaultConfig(), "character_validation", "enabled", Bool(true));
  }

  lemma DefaultCharacterValidationMaxSameChar()
    ensures Setting(DefaultConfig(), "character_validation", "max_consecutive_same_char", Int(50)) == Int(50)
  {
    MissingSectionLookup(DefaultConfig(), "character_validation", "max_consecutive_same_char", Int(50));
  }

  lemma DefaultCharacterValidationBlockHomoglyphs()
    ensures Setting(DefaultConfig(), "character_validation", "block_homoglyphs", Bool(true)) == Bool(true)
  {
    MissingSectionLookup(DefaultConfig(), "character_validation", "block_homoglyphs", Bool(true));
  }

  /** The default configuration yields the default settings: every check
      on, the three built-in critical patterns, no suspicious pattern, the
      default web-address pattern, no URL allowed, newline runs capped at 3
      and character runs at 50. */
  lemma DefaultConfigSettings(engine: Engine)
    ensures SettingsOf(DefaultConfig(), engine) == Some(DefaultSettings(engine))
  {
    DefaultConfigRaw();
    DefaultRawTyped(engine);
  }

  /** What the default configuration's lookups return. */
  const DefaultRaw: RawSettings := RawSettings(
    Bool(true), Bool(true), Bool(true), Bool(true), Int(3),
    Bool(true), List([Str(ScriptTagSource), Str(JavascriptSchemeSource), Str(EventHandlerSource)]), List([]),
    Bool(true), Str(WebAddressSource), Int(0), Bool(true), List([]),
    Int(10000), Int(2000), Int(100), Int(50),
    Bool(true), Int(50), Bool(true))

  lemma DefaultConfigRaw()
    ensures Raw(DefaultConfig()) == DefaultRaw
  {
    DefaultSanitizationEnabled();
    DefaultSanitizationRemoveControlChars();
    DefaultSanitizationStripInvisibleChars();
    DefaultSanitizationNormalizeWhitespace();
    DefaultSanitizationMaxConsecutiveNewlines();
    DefaultMaliciousPatternsEnabled();
    DefaultMaliciousPatternsPatterns();
    DefaultMaliciousPatternsSuspiciousPatterns();
    DefaultUrlDetectionEnabled();
    DefaultUrlDetectionUrlPattern();
    DefaultUrlDetectionMaxUrlsAllowed();
    DefaultUrlDetectionBlockAllUrls();
    DefaultUrlDetectionSuspiciousDomains();
    DefaultContentLimitsMaxChars();
    DefaultContentLimitsMaxWords();
    DefaultContentLimitsMinChars();
    DefaultContentLimitsMinWords();
    DefaultCharacterValidationEnabled();
    DefaultCharacterValidationMaxSameChar();
    DefaultCharacterValidationBlockHomoglyphs();
  }

  lemma DefaultRawTyped(engine: Engine)
    ensures Typed(DefaultRaw, engine) == Some(DefaultSettings(engine))
  {
    var sources := [ScriptTagSource, JavascriptSchemeSource, EventHandlerSource];
    var listed := [Str(ScriptTagSource), Str(JavascriptSchemeSource), Str(EventHandlerSource)];
    assert forall i :: 0 <= i < |listed| ==> listed[i].Str?;
    assert StringItems(List(listed)).value == sources;
    assert CompileAll(sources, false) == [ScriptTag, JavascriptScheme, EventHandler];
    assert StringItems(List([])).value == [];
  }
}
