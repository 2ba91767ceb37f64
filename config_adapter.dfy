/**
 * The configuration adapter (backend/config/adapter.go): the NNTP provider
 * list built from the Usenet settings, and the configuration handed to the
 * import and streaming packages, with fixed defaults when the settings
 * cannot be loaded. The settings types carry the fields the core reads.
 */
module Config {
  import opened Wrappers

  /** `config.UsenetSettings`. */
  datatype UsenetSettings = UsenetSettings(
    name: string,
    host: string,
    port: int,
    username: string,
    password: string,
    connections: int,
    ssl: bool,
    enabled: bool)

  /** `config.IndexerConfig`. */
  datatype IndexerConfig = IndexerConfig(name: string, enabled: bool)

  /** `config.TorrentScraperConfig`. */
  datatype TorrentScraperConfig = TorrentScraperConfig(name: string, enabled: bool)

  /** `nntppool.UsenetProviderConfig`. */
  datatype ProviderConfig = ProviderConfig(
    host: string,
    port: int,
    username: string,
    password: string,
    maxConnections: int,
    tls: bool,
    maxConnectionIdleTimeInSeconds: int,
    maxConnectionTTLInSeconds: int)

  const DefaultMaxConnectionIdleTimeSeconds := 120
  const DefaultMaxConnectionTTLSeconds := 900

  predicate Usable(s: UsenetSettings)
  {
    s.enabled && s.host != ""
  }

  function ProviderFor(s: UsenetSettings): ProviderConfig
  {
    ProviderConfig(s.host, s.port, s.username, s.password, s.connections, s.ssl,
                   DefaultMaxConnectionIdleTimeSeconds, DefaultMaxConnectionTTLSeconds)
  }

  /** The providers of a run of settings: the usable ones, in order. */
  function Providers(settings: seq<UsenetSettings>): seq<ProviderConfig>
  {
    if settings == [] then []
    else
      var init := Providers(settings[..|settings| - 1]);
      var s := settings[|settings| - 1];
      if Usable(s) then init + [ProviderFor(s)] else init
  }

  /** `ToNNTPProviders`. */
  method ToNNTPProviders(settings: seq<UsenetSettings>) returns (providers: seq<ProviderConfig>)
    ensures providers == Providers(settings)
  {
    providers := [];
    var i := 0;
    while i < |settings|
      invariant 0 <= i <= |settings|
      invariant providers == Providers(settings[..i])
    {
      var s := settings[i];
      assert settings[..i + 1][..i] == settings[..i];
      if !s.enabled || s.host == "" {
        i := i + 1;
        continue;
      }
      providers := providers + [ProviderConfig(s.host, s.port, s.username, s.password, s.connections, s.ssl,
                                               DefaultMaxConnectionIdleTimeSeconds, DefaultMaxConnectionTTLSeconds)];
      i := i + 1;
    }
    assert settings[..i] == settings;
  }

  /** The providers of two runs are those of the first followed by those of
      the second: order is kept and each setting is judged on its own. */
  lemma {:induction false} ProvidersConcat(a: seq<UsenetSettings>, b: seq<UsenetSettings>)
    ensures Providers(a + b) == Providers(a) + Providers(b)
    decreases |b|
  {
    if b == [] {
      assert a + b == a;
    } else {
      var b' := b[..|b| - 1];
      assert (a + b)[..|a + b| - 1] == a + b';
      assert (a + b)[|a + b| - 1] == b[|b| - 1];
      ProvidersConcat(a, b');
    }
  }

  /** One setting gives one provider exactly when it is enabled with a host. */
  lemma ProvidersOfOne(s: UsenetSettings)
    ensures Providers([s]) == if Usable(s) then [ProviderFor(s)] else []
  {
    assert [s][..0] == [];
  }

  /** Every provider comes from a usable setting, copies its fields and
      carries the fixed idle time and lifetime; there are never more
      providers than settings. */
  lemma {:induction false} ProvidersMeaning(settings: seq<UsenetSettings>)
    ensures |Providers(settings)| <= |settings|
    ensures forall p :: p in Providers(settings) ==>
      exists i :: 0 <= i < |settings| && Usable(settings[i]) && p == ProviderFor(settings[i])
    ensures forall p :: p in Providers(settings) ==>
      p.host != "" && p.maxConnectionIdleTimeInSeconds == 120 && p.maxConnectionTTLInSeconds == 900
  {
    if settings != [] {
      var init := settings[..|settings| - 1];
      ProvidersMeaning(init);
      forall p | p in Providers(settings)
        ensures exists i :: 0 <= i < |settings| && Usable(settings[i]) && p == ProviderFor(settings[i])
      {
        if p in Providers(init) {
          var i :| 0 <= i < |init| && Usable(init[i]) && p == ProviderFor(init[i]);
          assert settings[i] == init[i];
        } else {
          assert p == ProviderFor(settings[|settings| - 1]);
        }
      }
    }
  }

  /** Every usable setting has its provider in the list. */
  lemma {:induction false} UsableSettingKept(settings: seq<UsenetSettings>, i: nat)
    requires i < |settings| && Usable(settings[i])
    ensures ProviderFor(settings[i]) in Providers(settings)
  {
    var init := settings[..|settings| - 1];
    if i < |init| {
      assert init[i] == settings[i];
      UsableSettingKept(init, i);
    }
  }

  // ---------------------------------------------------------------------------
  // GetConfig.
  // ---------------------------------------------------------------------------

  /** The settings `GetConfig` reads. */
  datatype StreamingSettings = StreamingSettings(maxDownloadWorkers: int, maxCacheSizeMB: int)
  datatype ImportSettings = ImportSettings(
    queueProcessingIntervalSeconds: int,
    rarMaxWorkers: int,
    rarMaxCacheSizeMB: int,
    rarEnableMemoryPreload: bool,
    rarMaxMemoryGB: int)
  datatype SabnzbdSettings = SabnzbdSettings(enabled: Option<bool>, fallbackHost: string, fallbackAPIKey: string)
  datatype WebdavSettings = WebdavSettings(prefix: string, username: string, password: string)
  datatype Settings = Settings(
    streaming: StreamingSettings,
    importing: ImportSettings,
    sabnzbd: SabnzbdSettings,
    webdav: WebdavSettings)

  /** `AltMountConfig`; `None` stands for a nil `*bool`. */
  datatype RCloneConfig = RCloneConfig(password: string, salt: string)
  datatype StreamingConfig = StreamingConfig(maxDownloadWorkers: int, maxCacheSizeMB: int)
  datatype ImportConfig = ImportConfig(
    queueProcessingIntervalSeconds: int,
    rarMaxWorkers: int,
    rarMaxCacheSizeMB: int,
    rarEnableMemoryPreload: bool,
    rarMaxMemoryGB: int)
  datatype SabnzbdConfig = SabnzbdConfig(enabled: Option<bool>, fallbackHost: string, fallbackAPIKey: string)
  datatype WebdavConfig = WebdavConfig(prefix: string, user: string, password: string)
  datatype AltMountConfig = AltMountConfig(
    rclone: RCloneConfig,
    streaming: StreamingConfig,
    importing: ImportConfig,
    sabnzbd: SabnzbdConfig,
    webdav: WebdavConfig)

  /** `GetConfig`, given the outcome of loading the settings. */
  function GetConfig(load: Result<Settings, ()>): (c: AltMountConfig)
    ensures load.Err? ==>
      c.streaming == StreamingConfig(15, 100) && c.importing == ImportConfig(1, 40, 128, true, 8)
      && c.rclone == RCloneConfig("", "") && c.sabnzbd == SabnzbdConfig(None, "", "")
      && c.webdav == WebdavConfig("", "", "")
    ensures load.Ok? ==>
      var s := load.value;
      c.rclone == RCloneConfig("", "")
      && c.streaming.maxDownloadWorkers == s.streaming.maxDownloadWorkers
      && c.streaming.maxCacheSizeMB == s.streaming.maxCacheSizeMB
      && c.importing.queueProcessingIntervalSeconds == s.importing.queueProcessingIntervalSeconds
      && c.importing.rarMaxWorkers == s.importing.rarMaxWorkers
      && c.importing.rarMaxCacheSizeMB == s.importing.rarMaxCacheSizeMB
      && c.importing.rarEnableMemoryPreload == s.importing.rarEnableMemoryPreload
      && c.importing.rarMaxMemoryGB == s.importing.rarMaxMemoryGB
      && c.sabnzbd.enabled == s.sabnzbd.enabled
      && c.sabnzbd.fallbackHost == s.sabnzbd.fallbackHost
      && c.sabnzbd.fallbackAPIKey == s.sabnzbd.fallbackAPIKey
      && c.webdav.prefix == s.webdav.prefix
      && c.webdav.user == s.webdav.username
      && c.webdav.password == s.webdav.password
  {
    match load
    case Err(_) =>
      AltMountConfig(
        RCloneConfig("", ""),
        StreamingConfig(15, 100),
        ImportConfig(1, 40, 128, true, 8),
        SabnzbdConfig(None, "", ""),
        WebdavConfig("", "", ""))
    case Ok(s) =>
      AltMountConfig(
        RCloneConfig("", ""),
        StreamingConfig(s.streaming.maxDownloadWorkers, s.streaming.maxCacheSizeMB),
        ImportConfig(s.importing.queueProcessingIntervalSeconds, s.importing.rarMaxWorkers,
                     s.importing.rarMaxCacheSizeMB, s.importing.rarEnableMemoryPreload,
                     s.importing.rarMaxMemoryGB),
        SabnzbdConfig(s.sabnzbd.enabled, s.sabnzbd.fallbackHost, s.sabnzbd.fallbackAPIKey),
        WebdavConfig(s.webdav.prefix, s.webdav.username, s.webdav.password))
  }

  /** Nothing read is lost: loaded settings that give the same configuration
      are the same settings. */
  lemma GetConfigLosesNothing(a: Settings, b: Settings)
    requires GetConfig(Ok(a)) == GetConfig(Ok(b))
    ensures a == b
  {
  }
}
