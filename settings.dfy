/** Application settings (src/utils/settings.ts): defaults, the TTL choices
    offered to the user, and persistence as one JSON record under one key of
    the device's key-value storage. JSON is an opaque pair of functions. */
module Settings {
  import opened Wrappers

  datatype CacheSettings = CacheSettings(enabled: bool, ttl: int)

  datatype AppSettings = AppSettings(cache: CacheSettings)

  const HOUR: int := 60 * 60 * 1000

  const DEFAULT_SETTINGS: AppSettings := AppSettings(CacheSettings(true, 24 * HOUR))

  datatype TtlOption = TtlOption(title: string, value: int)

  /** The choices offered for the cache lifetime; -1 stands for "permanent". */
  const CACHE_TTL_OPTIONS: seq<TtlOption> := [
    TtlOption("1小时", HOUR),
    TtlOption("12小时", 12 * HOUR),
    TtlOption("1天", 24 * HOUR),
    TtlOption("1周", 7 * 24 * HOUR),
    TtlOption("1月", 30 * 24 * HOUR),
    TtlOption("永久", -1)
  ]

  const PERMANENT: int := -1

  const SETTINGS_STORAGE_KEY: string := "@app_settings"

  /** What `JSON.parse` yields for a stored record: its `cache` member, when
      it has one. */
  datatype StoredSettings = StoredSettings(cache: Option<CacheSettings>)

  /** `JSON.parse` (None when it throws) and `JSON.stringify`. */
  datatype SettingsJson = SettingsJson(parse: string -> Option<StoredSettings>, stringify: AppSettings -> string)

  /** Serializing gives a non-empty text that parses back to the same record. */
  ghost predicate RoundTrips(json: SettingsJson) {
    forall s :: json.stringify(s) != "" && json.parse(json.stringify(s)) == Some(StoredSettings(Some(s.cache)))
  }

  /** `{ ...DEFAULT_SETTINGS, ...stored }`: a shallow merge, so a stored
      `cache` object replaces the default one as a whole. */
  function Merge(stored: StoredSettings): (s: AppSettings)
    ensures stored.cache.Some? ==> s.cache == stored.cache.value
    ensures stored.cache.None? ==> s == DEFAULT_SETTINGS
  {
    match stored.cache
    case None => DEFAULT_SETTINGS
    case Some(c) => DEFAULT_SETTINGS.(cache := c)
  }

  /** The device's key-value storage. */
  class AsyncStorage {
    var items: map<string, string>

    constructor (items: map<string, string>)
      ensures this.items == items
    {
      this.items := items;
    }
  }

  /** What `loadSettings` returns when the storage holds `items` and reading
      it succeeds iff `readOk`. */
  function Loaded(items: map<string, string>, json: SettingsJson, readOk: bool): AppSettings {
    if !readOk || SETTINGS_STORAGE_KEY !in items || items[SETTINGS_STORAGE_KEY] == "" then DEFAULT_SETTINGS
    else match json.parse(items[SETTINGS_STORAGE_KEY])
      case None => DEFAULT_SETTINGS
      case Some(stored) => Merge(stored)
  }

  method LoadSettings(storage: AsyncStorage, json: SettingsJson, readOk: bool) returns (s: AppSettings)
    ensures s == Loaded(storage.items, json, readOk)
  {
    if !readOk {
      return DEFAULT_SETTINGS;
    }
    var savedSettings := if SETTINGS_STORAGE_KEY in storage.items then storage.items[SETTINGS_STORAGE_KEY] else "";
    if savedSettings != "" {
      var parsed := json.parse(savedSettings);
      if parsed.Some? {
        return Merge(parsed.value);
      }
    }
    return DEFAULT_SETTINGS;
  }

  /** Overwrites the one key with the whole record; a failed write is swallowed. */
  method SaveSettings(storage: AsyncStorage, json: SettingsJson, settings: AppSettings, writeOk: bool)
    modifies storage
    ensures storage.items == if writeOk then old(storage.items)[SETTINGS_STORAGE_KEY := json.stringify(settings)]
                             else old(storage.items)
  {
    if writeOk {
      storage.items := storage.items[SETTINGS_STORAGE_KEY := json.stringify(settings)];
    }
  }

  // ---- properties ----

  /** Caching is on by default, for one day, which is one of the offered choices. */
  lemma Defaults()
    ensures DEFAULT_SETTINGS.cache.enabled
    ensures DEFAULT_SETTINGS.cache.ttl == 86400000
    ensures exists i :: 0 <= i < |CACHE_TTL_OPTIONS| && CACHE_TTL_OPTIONS[i].value == DEFAULT_SETTINGS.cache.ttl
  {
    assert CACHE_TTL_OPTIONS[2].value == DEFAULT_SETTINGS.cache.ttl;
  }

  /** Five strictly increasing positive durations, then the permanent sentinel. */
  lemma TtlOptionsShape()
    ensures |CACHE_TTL_OPTIONS| == 6
    ensures forall i, j :: 0 <= i < j < 5 ==> 0 < CACHE_TTL_OPTIONS[i].value < CACHE_TTL_OPTIONS[j].value
    ensures CACHE_TTL_OPTIONS[5].value == PERMANENT
  {
  }

  /** Nothing stored, an empty text, an unreadable storage or an unparsable
      record all give the defaults. */
  lemma LoadFallsBackToDefaults(items: map<string, string>, json: SettingsJson, readOk: bool)
    requires !readOk || SETTINGS_STORAGE_KEY !in items || items[SETTINGS_STORAGE_KEY] == ""
             || json.parse(items[SETTINGS_STORAGE_KEY]).None?
    ensures Loaded(items, json, readOk) == DEFAULT_SETTINGS
  {
  }

  /** A stored record's `cache` replaces the default wholesale; a record
      without one gives the defaults. */
  lemma LoadIsShallowMerge(items: map<string, string>, json: SettingsJson, stored: StoredSettings)
    requires SETTINGS_STORAGE_KEY in items && items[SETTINGS_STORAGE_KEY] != ""
    requires json.parse(items[SETTINGS_STORAGE_KEY]) == Some(stored)
    ensures Loaded(items, json, true).cache == if stored.cache.Some? then stored.cache.value else DEFAULT_SETTINGS.cache
  {
  }

  /** Saving then loading gives back the saved settings. */
  lemma SaveThenLoad(items: map<string, string>, json: SettingsJson, settings: AppSettings)
    requires RoundTrips(json)
    ensures Loaded(items[SETTINGS_STORAGE_KEY := json.stringify(settings)], json, true) == settings
  {
    assert json.parse(json.stringify(settings)) == Some(StoredSettings(Some(settings.cache)));
  }
}
