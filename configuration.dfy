/** The backend's configuration: the schema every setting is validated against, the
    reading of the settings from the process environment, and the module-level cache
    that makes the environment be read at most once successfully. Zod's `parse` is
    modelled as a function returning either the parsed record or the issues found; the
    URL grammar behind `z.url()` is the parameter `isUrl`. */
module Configuration {
  import opened Wrappers

  /** The process environment: variable name to value; an unset variable is absent. */
  type Env = map<string, string>

  /** The URL grammar `z.url()` checks against. */
  type UrlCheck = string -> bool

  const DefaultEmbeddingModel: string := "text-embedding-3-small"
  const DefaultChatModel: string := "gpt-4o-mini"
  const ProductionMessage: string := "tursoDatabaseUrl and tursoAuthToken are required in production"

  datatype BasicAuth = BasicAuth(username: string, password: string)

  /** `Config`, the type the schema infers. */
  datatype Config = Config(
    isDevelopment: bool,
    openaiKey: string,
    embeddingModel: string,
    chatModel: string,
    tursoDatabaseUrl: Option<string>,
    tursoAuthToken: Option<string>,
    basicAuth: BasicAuth)

  /** The object handed to `configSchema.parse`; `None` is `undefined`. */
  datatype ConfigInput = ConfigInput(
    isDevelopment: Option<bool>,
    openaiKey: Option<string>,
    embeddingModel: Option<string>,
    chatModel: Option<string>,
    tursoDatabaseUrl: Option<string>,
    tursoAuthToken: Option<string>,
    username: Option<string>,
    password: Option<string>)

  /** The path of the value an issue is about. */
  datatype Field = OpenaiKey | TursoDatabaseUrl | TursoAuthToken | BasicAuthUsername | BasicAuthPassword

  datatype Issue =
    | Required(field: Field)      // a required string is undefined
    | TooSmall(field: Field)      // `nonempty()` got ""
    | InvalidUrl(field: Field)    // `z.url()` rejected the string
    | Custom(message: string)     // the `refine` on the whole object failed

  /** A present, non-empty string: what `nonempty()` accepts and what `!!` makes true. */
  predicate NonEmpty(v: Option<string>) {
    v.Some? && v.value != ""
  }

  /** `z.string().nonempty()` */
  function RequiredNonEmpty(field: Field, v: Option<string>): (issues: seq<Issue>)
    ensures issues == [] <==> NonEmpty(v)
    ensures v.None? ==> issues == [Required(field)]
  {
    match v
    case None => [Required(field)]
    case Some(s) => if s == "" then [TooSmall(field)] else []
  }

  /** `z.string().nonempty().optional()` */
  function OptionalNonEmpty(field: Field, v: Option<string>): (issues: seq<Issue>)
    ensures issues == [] <==> v.None? || v.value != ""
  {
    if v.Some? && v.value == "" then [TooSmall(field)] else []
  }

  /** `z.url().optional()` */
  function OptionalUrl(field: Field, v: Option<string>, isUrl: UrlCheck): (issues: seq<Issue>)
    ensures issues == [] <==> v.None? || isUrl(v.value)
  {
    if v.Some? && !isUrl(v.value) then [InvalidUrl(field)] else []
  }

  /** The issues of the field rules, in the order the schema declares the fields. */
  function FieldIssues(input: ConfigInput, isUrl: UrlCheck): (issues: seq<Issue>)
    ensures forall i :: 0 <= i < |issues| ==> !issues[i].Custom?
  {
    RequiredNonEmpty(OpenaiKey, input.openaiKey)
    + OptionalUrl(TursoDatabaseUrl, input.tursoDatabaseUrl, isUrl)
    + OptionalNonEmpty(TursoAuthToken, input.tursoAuthToken)
    + RequiredNonEmpty(BasicAuthUsername, input.username)
    + RequiredNonEmpty(BasicAuthPassword, input.password)
  }

  /** The predicate of the `refine`: development always passes; production needs both
      Turso settings to be truthy. */
  predicate ProductionRule(isDevelopment: bool, tursoDatabaseUrl: Option<string>, tursoAuthToken: Option<string>) {
    isDevelopment || (NonEmpty(tursoDatabaseUrl) && NonEmpty(tursoAuthToken))
  }

  /** Zod runs the `refine` unless a field had a non-continuable issue: a required string
      that is `undefined`. An empty string or a rejected URL does not stop it. */
  predicate RefineRuns(input: ConfigInput) {
    input.openaiKey.Some? && input.username.Some? && input.password.Some?
  }

  /** `configSchema.parse`: the field rules with their defaults, then the production rule. */
  function ConfigSchemaParse(input: ConfigInput, isUrl: UrlCheck): (r: Result<Config, seq<Issue>>)
    ensures r.Ok? <==>
      && NonEmpty(input.openaiKey)
      && (input.tursoDatabaseUrl.None? || isUrl(input.tursoDatabaseUrl.value))
      && (input.tursoAuthToken.None? || input.tursoAuthToken.value != "")
      && NonEmpty(input.username) && NonEmpty(input.password)
      && (input.isDevelopment.GetOr(false) || (NonEmpty(input.tursoDatabaseUrl) && NonEmpty(input.tursoAuthToken)))
    ensures r.Ok? ==>
      && r.value.isDevelopment == input.isDevelopment.GetOr(false)
      && r.value.openaiKey == input.openaiKey.value
      && r.value.embeddingModel == input.embeddingModel.GetOr(DefaultEmbeddingModel)
      && r.value.chatModel == input.chatModel.GetOr(DefaultChatModel)
      && r.value.tursoDatabaseUrl == input.tursoDatabaseUrl
      && r.value.tursoAuthToken == input.tursoAuthToken
      && r.value.basicAuth == BasicAuth(input.username.value, input.password.value)
    ensures r.Err? ==> r.error != []
    ensures input.openaiKey.None? ==> r.Err? && Required(OpenaiKey) in r.error
    ensures input.openaiKey == Some("") ==> r.Err? && TooSmall(OpenaiKey) in r.error
    ensures input.username.None? ==> r.Err? && Required(BasicAuthUsername) in r.error
    ensures input.password.None? ==> r.Err? && Required(BasicAuthPassword) in r.error
    ensures (r.Err? && Custom(ProductionMessage) in r.error) <==>
      RefineRuns(input) && !ProductionRule(input.isDevelopment.GetOr(false), input.tursoDatabaseUrl, input.tursoAuthToken)
  {
    var fieldIssues := FieldIssues(input, isUrl);
    var refineIssues :=
      if RefineRuns(input) && !ProductionRule(input.isDevelopment.GetOr(false), input.tursoDatabaseUrl, input.tursoAuthToken)
      then [Custom(ProductionMessage)] else [];
    var issues := fieldIssues + refineIssues;
    if issues != [] then
      Err(issues)
    else
      Ok(Config(
        input.isDevelopment.GetOr(false),
        input.openaiKey.value,
        input.embeddingModel.GetOr(DefaultEmbeddingModel),
        input.chatModel.GetOr(DefaultChatModel),
        input.tursoDatabaseUrl,
        input.tursoAuthToken,
        BasicAuth(input.username.value, input.password.value)))
  }

  /** The value of environment variable `name`, or `undefined`. */
  function Lookup(env: Env, name: string): Option<string> {
    if name in env then Some(env[name]) else None
  }

  /** `envSource["NODE_ENV"] !== "production"` */
  predicate IsDevelopment(env: Env) {
    Lookup(env, "NODE_ENV") != Some("production")
  }

  /** The object `parseConfigFromEnv` builds from the environment. */
  function EnvInput(env: Env): ConfigInput {
    ConfigInput(
      Some(IsDevelopment(env)),
      Lookup(env, "OPENAI_API_KEY"),
      Lookup(env, "OPENAI_EMBEDDING_MODEL"),
      Lookup(env, "OPENAI_CHAT_MODEL"),
      Lookup(env, "TURSO_DATABASE_URL"),
      Lookup(env, "TURSO_AUTH_TOKEN"),
      Lookup(env, "BASIC_AUTH_USERNAME"),
      Lookup(env, "BASIC_AUTH_PASSWORD"))
  }

  /** `parseConfigFromEnv`, stated in terms of the environment variables. */
  function ParseConfigFromEnv(env: Env, isUrl: UrlCheck): (r: Result<Config, seq<Issue>>)
    ensures r.Ok? <==>
      && NonEmpty(Lookup(env, "OPENAI_API_KEY"))
      && NonEmpty(Lookup(env, "BASIC_AUTH_USERNAME")) && NonEmpty(Lookup(env, "BASIC_AUTH_PASSWORD"))
      && ("TURSO_DATABASE_URL" in env ==> isUrl(env["TURSO_DATABASE_URL"]))
      && ("TURSO_AUTH_TOKEN" in env ==> env["TURSO_AUTH_TOKEN"] != "")
      && (IsDevelopment(env) || (NonEmpty(Lookup(env, "TURSO_DATABASE_URL")) && NonEmpty(Lookup(env, "TURSO_AUTH_TOKEN"))))
    ensures r.Ok? ==>
      && (r.value.isDevelopment <==> Lookup(env, "NODE_ENV") != Some("production"))
      && r.value.openaiKey == env["OPENAI_API_KEY"]
      && r.value.embeddingModel == (if "OPENAI_EMBEDDING_MODEL" in env then env["OPENAI_EMBEDDING_MODEL"] else DefaultEmbeddingModel)
      && r.value.chatModel == (if "OPENAI_CHAT_MODEL" in env then env["OPENAI_CHAT_MODEL"] else DefaultChatModel)
      && r.value.tursoDatabaseUrl == Lookup(env, "TURSO_DATABASE_URL")
      && r.value.tursoAuthToken == Lookup(env, "TURSO_AUTH_TOKEN")
      && r.value.basicAuth == BasicAuth(env["BASIC_AUTH_USERNAME"], env["BASIC_AUTH_PASSWORD"])
    ensures !IsDevelopment(env) && r.Ok? ==> r.value.tursoDatabaseUrl.Some? && r.value.tursoAuthToken.Some?
  {
    ConfigSchemaParse(EnvInput(env), isUrl)
  }

  /** An environment that holds exactly the settings of `c`. */
  function EnvOf(c: Config): (env: Env)
    ensures IsDevelopment(env) == c.isDevelopment
  {
    var base := map[
      "OPENAI_API_KEY" := c.openaiKey,
      "OPENAI_EMBEDDING_MODEL" := c.embeddingModel,
      "OPENAI_CHAT_MODEL" := c.chatModel,
      "BASIC_AUTH_USERNAME" := c.basicAuth.username,
      "BASIC_AUTH_PASSWORD" := c.basicAuth.password];
    var withMode := if c.isDevelopment then base else base["NODE_ENV" := "production"];
    var withUrl := if c.tursoDatabaseUrl.Some? then withMode["TURSO_DATABASE_URL" := c.tursoDatabaseUrl.value] else withMode;
    if c.tursoAuthToken.Some? then withUrl["TURSO_AUTH_TOKEN" := c.tursoAuthToken.value] else withUrl
  }

  /** Every configuration the schema admits is read back unchanged from an environment
      that holds its settings. */
  lemma ParseEnvOf(c: Config, isUrl: UrlCheck)
    requires c.openaiKey != "" && c.basicAuth.username != "" && c.basicAuth.password != ""
    requires c.tursoDatabaseUrl.None? || isUrl(c.tursoDatabaseUrl.value)
    requires c.tursoAuthToken.None? || c.tursoAuthToken.value != ""
    requires ProductionRule(c.isDevelopment, c.tursoDatabaseUrl, c.tursoAuthToken)
    ensures ParseConfigFromEnv(EnvOf(c), isUrl) == Ok(c)
  {
    var env := EnvOf(c);
    assert Lookup(env, "OPENAI_API_KEY") == Some(c.openaiKey);
    assert Lookup(env, "OPENAI_EMBEDDING_MODEL") == Some(c.embeddingModel);
    assert Lookup(env, "OPENAI_CHAT_MODEL") == Some(c.chatModel);
    assert Lookup(env, "BASIC_AUTH_USERNAME") == Some(c.basicAuth.username);
    assert Lookup(env, "BASIC_AUTH_PASSWORD") == Some(c.basicAuth.password);
    assert Lookup(env, "TURSO_DATABASE_URL") == c.tursoDatabaseUrl;
    assert Lookup(env, "TURSO_AUTH_TOKEN") == c.tursoAuthToken;
  }

  /** The module-level `cachedConfig` with `getConfig`. */
  class ConfigCache {
    var cachedConfig: Option<Config>

    /** `let cachedConfig: Config | null = null` */
    constructor ()
      ensures cachedConfig == None
    {
      cachedConfig := None;
    }

    /** `getConfig`: the cached configuration when there is one, without reading the
        environment; otherwise the configuration parsed from `env`, which is cached when
        the parse succeeds. A failed parse (Zod throws) leaves the cache empty. */
    method GetConfig(env: Env, isUrl: UrlCheck) returns (r: Result<Config, seq<Issue>>)
      modifies this
      ensures old(cachedConfig).Some? ==> r == Ok(old(cachedConfig).value) && cachedConfig == old(cachedConfig)
      ensures old(cachedConfig).None? ==> r == ParseConfigFromEnv(env, isUrl)
      ensures cachedConfig == if r.Ok? then Some(r.value) else None
    {
      if cachedConfig.Some? {
        return Ok(cachedConfig.value);
      }
      r := ParseConfigFromEnv(env, isUrl);
      if r.Ok? {
        cachedConfig := Some(r.value);
      }
    }
  }

  /** Once a call has succeeded, every later call answers the same configuration, whatever
      the environment holds by then. */
  method GetConfigIsStable(cache: ConfigCache, env: Env, laterEnv: Env, isUrl: UrlCheck, laterIsUrl: UrlCheck)
    returns (first: Result<Config, seq<Issue>>, later: Result<Config, seq<Issue>>)
    modifies cache
    ensures first.Ok? ==> later == first
    ensures old(cache.cachedConfig).None? ==> first == ParseConfigFromEnv(env, isUrl)
  {
    first := cache.GetConfig(env, isUrl);
    later := cache.GetConfig(laterEnv, laterIsUrl);
  }
}
