/**
 How `DatabaseConfig` in database.py resolves the store's connection URL
 from the process environment: a provider-supplied `DATABASE_URL` wins and
 has its legacy `postgres://` scheme rewritten once; otherwise the URL is
 composed from five `DB_*` variables with defaults. A second one-shot
 rewrite derives the URL the asynchronous driver uses.
 */
module DbConfig {
  import opened Wrappers
  import opened Strings
  import opened Environment

  const LegacyScheme: string := "postgres://"
  const SyncScheme: string := "postgresql://"
  const AsyncScheme: string := "postgresql+asyncpg://"

  const DefaultHost: string := "localhost"
  const DefaultPort: string := "5432"
  const DefaultName: string := "fastagency"
  const DefaultUser: string := "postgres"
  const DefaultPassword: string := ""

  /** The resolved configuration: the synchronous and the asynchronous URL. */
  datatype Config = Config(databaseUrl: string, asyncDatabaseUrl: string)

  /** `postgresql://{user}:{password}@{host}:{port}/{name}`, interpolated verbatim. */
  function ComposeUrl(user: string, password: string, host: string, port: string, name: string): string {
    SyncScheme + (user + ":" + password + "@" + host + ":" + port + "/" + name)
  }

  /** The URL composed from the discrete variables, each falling back to its default only when unset. */
  function FallbackUrl(env: Env): string {
    ComposeUrl(GetenvOr(env, "DB_USER", DefaultUser),
               GetenvOr(env, "DB_PASSWORD", DefaultPassword),
               GetenvOr(env, "DB_HOST", DefaultHost),
               GetenvOr(env, "DB_PORT", DefaultPort),
               GetenvOr(env, "DB_NAME", DefaultName))
  }

  /** A provider URL with the legacy scheme gets `postgresql://` in its place; any other URL is kept. */
  function NormalizeProviderUrl(url: string): string {
    if StartsWith(url, LegacyScheme) then ReplaceFirst(url, LegacyScheme, SyncScheme) else url
  }

  /** `DatabaseConfig._get_database_url` */
  function DatabaseUrl(env: Env): (r: string)
    ensures ProviderUrlSet(env) && StartsWith(env["DATABASE_URL"], LegacyScheme) ==>
              r == SyncScheme + env["DATABASE_URL"][|LegacyScheme|..]
    ensures ProviderUrlSet(env) && !StartsWith(env["DATABASE_URL"], LegacyScheme) ==>
              r == env["DATABASE_URL"]
    ensures !ProviderUrlSet(env) ==>
              r == SyncScheme + ((if "DB_USER" in env then env["DB_USER"] else "postgres")
                   + ":" + (if "DB_PASSWORD" in env then env["DB_PASSWORD"] else "")
                   + "@" + (if "DB_HOST" in env then env["DB_HOST"] else "localhost")
                   + ":" + (if "DB_PORT" in env then env["DB_PORT"] else "5432")
                   + "/" + (if "DB_NAME" in env then env["DB_NAME"] else "fastagency"))
    ensures r != "" && !StartsWith(r, LegacyScheme)
  {
    var provided := Getenv(env, "DATABASE_URL");
    if Truthy(provided) then
      if StartsWith(provided.value, LegacyScheme) then
        ReplaceFirstAtPrefix(provided.value, LegacyScheme, SyncScheme);
        PrefixOfConcat(SyncScheme, provided.value[|LegacyScheme|..]);
        SyncSchemeIsNotLegacy(NormalizeProviderUrl(provided.value));
        NormalizeProviderUrl(provided.value)
      else
        NormalizeProviderUrl(provided.value)
    else
      var url := FallbackUrl(env);
      PrefixOfConcat(SyncScheme, url[|SyncScheme|..]);
      assert url == SyncScheme + url[|SyncScheme|..];
      SyncSchemeIsNotLegacy(url);
      url
  }

  /** `DATABASE_URL` is truthy: set and not empty. */
  predicate ProviderUrlSet(env: Env) {
    Truthy(Getenv(env, "DATABASE_URL"))
  }

  /** `DatabaseConfig._get_async_database_url`, applied to the resolved synchronous URL. */
  function AsyncDatabaseUrl(syncUrl: string): (r: string)
    ensures StartsWith(syncUrl, SyncScheme) ==> r == AsyncScheme + syncUrl[|SyncScheme|..]
    ensures !StartsWith(syncUrl, SyncScheme) ==> r == syncUrl
  {
    if StartsWith(syncUrl, SyncScheme) then
      ReplaceFirstAtPrefix(syncUrl, SyncScheme, AsyncScheme);
      ReplaceFirst(syncUrl, SyncScheme, AsyncScheme)
    else
      syncUrl
  }

  /** `DatabaseConfig.__init__` */
  function NewConfig(env: Env): (c: Config)
    ensures !ProviderUrlSet(env) ==> StartsWith(c.asyncDatabaseUrl, AsyncScheme)
    ensures ProviderUrlSet(env) && StartsWith(env["DATABASE_URL"], LegacyScheme) ==>
              c.asyncDatabaseUrl == AsyncScheme + env["DATABASE_URL"][|LegacyScheme|..]
    ensures ProviderUrlSet(env) && StartsWith(env["DATABASE_URL"], SyncScheme) ==>
              c.asyncDatabaseUrl == AsyncScheme + env["DATABASE_URL"][|SyncScheme|..]
    ensures ProviderUrlSet(env) && !StartsWith(env["DATABASE_URL"], LegacyScheme)
              && !StartsWith(env["DATABASE_URL"], SyncScheme) ==>
              c.asyncDatabaseUrl == env["DATABASE_URL"]
    ensures c.databaseUrl == DatabaseUrl(env)
    ensures c.asyncDatabaseUrl == AsyncDatabaseUrl(c.databaseUrl)
  {
    var url := DatabaseUrl(env);
    var asyncUrl := AsyncDatabaseUrl(url);
    assert !ProviderUrlSet(env) || StartsWith(env["DATABASE_URL"], LegacyScheme) ==>
             asyncUrl == AsyncScheme + url[|SyncScheme|..] && StartsWith(asyncUrl, AsyncScheme) by {
      if !ProviderUrlSet(env) || StartsWith(env["DATABASE_URL"], LegacyScheme) {
        assert url == SyncScheme + url[|SyncScheme|..];
        PrefixOfConcat(SyncScheme, url[|SyncScheme|..]);
        PrefixOfConcat(AsyncScheme, url[|SyncScheme|..]);
      }
    }
    Config(url, asyncUrl)
  }

  /** A URL with the driver's scheme never carries the legacy one: `postgresql://`
      differs from `postgres://` at its ninth character. */
  lemma SyncSchemeIsNotLegacy(url: string)
    requires StartsWith(url, SyncScheme)
    ensures url != "" && !StartsWith(url, LegacyScheme)
  {
    assert url[8] == SyncScheme[8] == 'q' != LegacyScheme[8];
  }

  /** With none of the discrete variables set, the fallback is the default URL,
      `postgresql://postgres:@localhost:5432/fastagency`. */
  lemma DefaultUrl(env: Env)
    requires !ProviderUrlSet(env)
    requires "DB_USER" !in env && "DB_PASSWORD" !in env && "DB_HOST" !in env
    requires "DB_PORT" !in env && "DB_NAME" !in env
    ensures DatabaseUrl(env) == ComposeUrl("postgres", "", "localhost", "5432", "fastagency")
  {
    assert DatabaseUrl(env) == FallbackUrl(env);
  }

  /** Variables set to the empty string are used as they are; no default applies to them. */
  lemma EmptyValuesOverrideDefaults(env: Env)
    requires !ProviderUrlSet(env)
    requires "DB_USER" in env && "DB_PASSWORD" in env && "DB_HOST" in env && "DB_PORT" in env && "DB_NAME" in env
    requires env["DB_USER"] == env["DB_PASSWORD"] == env["DB_HOST"] == env["DB_PORT"] == env["DB_NAME"] == ""
    ensures DatabaseUrl(env) == "postgresql://:@:/"
  {
    assert DatabaseUrl(env) == FallbackUrl(env);
    assert FallbackUrl(env) == SyncScheme + ("" + ":" + "" + "@" + "" + ":" + "" + "/" + "");
  }

  /** Feeding the resolved URL back in as `DATABASE_URL` resolves to the same URL:
      normalization is idempotent. */
  lemma ResolutionIsIdempotent(env: Env)
    ensures DatabaseUrl(env["DATABASE_URL" := DatabaseUrl(env)]) == DatabaseUrl(env)
  {
    var url := DatabaseUrl(env);
    var env' := env["DATABASE_URL" := url];
    assert ProviderUrlSet(env');
    assert env'["DATABASE_URL"] == url;
  }

  /** The asynchronous rewrite loses nothing: putting the synchronous scheme back in front
      of what follows `postgresql+asyncpg://` recovers the synchronous URL. */
  lemma AsyncRewriteRoundTrip(syncUrl: string)
    requires StartsWith(syncUrl, SyncScheme)
    ensures StartsWith(AsyncDatabaseUrl(syncUrl), AsyncScheme)
    ensures SyncScheme + AsyncDatabaseUrl(syncUrl)[|AsyncScheme|..] == syncUrl
  {
    var r := AsyncDatabaseUrl(syncUrl);
    assert r[|AsyncScheme|..] == syncUrl[|SyncScheme|..];
  }

  /** The parts are interpolated without escaping, so the composed URL does not determine
      them: a password containing `@` reads the same as a host containing it. */
  lemma ComposedUrlIsAmbiguous()
    ensures ComposeUrl("app", "p@db", "example", "5432", "fastagency")
         == ComposeUrl("app", "p", "db@example", "5432", "fastagency")
  {
  }
}
