/**
 * The server configuration of internal/infrastructure/config/config.go: how
 * `Load` builds it from the environment, the defaults, and the checks
 * `validate` runs. The environment is a map from names to values
 * (`os.Getenv` yields "" for a name that is not set); `time.ParseDuration`
 * is a parameter; durations are nanoseconds.
 */
module Config {
  import opened Wrappers

  type Env = map<string, string>

  type Parser = string -> Option<int>

  const OtpEasy: string := "easy"
  const OtpStrong: string := "strong"

  const Minute: int := 60 * 1_000_000_000
  const Hour: int := 60 * Minute

  const DefaultAccessTtl: int := 15 * Minute
  const DefaultRefreshTtl: int := 7 * 24 * Hour

  datatype Config = Config(
    env: string,
    port: string,
    databaseUrl: string,
    jwtSecret: string,
    otpStrength: string,
    magicOtp: string,
    storageUrl: string,
    serviceRoleKey: string,
    profileImageBucket: string,
    accessTokenTtl: int,
    refreshTokenTtl: int)

  /** `os.Getenv`. */
  function Getenv(env: Env, key: string): string
  {
    if key in env then env[key] else ""
  }

  /** `getEnv`: the variable's value unless it is unset or empty, and then the default. */
  function GetEnv(env: Env, key: string, defaultValue: string): (r: string)
    ensures Getenv(env, key) == "" ==> r == defaultValue
    ensures Getenv(env, key) != "" ==> r == env[key]
    ensures defaultValue != "" ==> r != ""
  {
    var value := Getenv(env, key);
    if value != "" then value else defaultValue
  }

  datatype ConfigError =
    | InvalidEnv(env: string)
    | PortRequired
    | DatabaseUrlRequired
    | JwtSecretRequired
    | InvalidOtpStrength(strength: string)
    | StorageUrlRequired
    | ServiceRoleKeyRequired
    | ProfileImageBucketRequired
    | AccessTtlNotPositive
    | RefreshTtlNotPositive
  {
    function Message(): string
    {
      match this
      case InvalidEnv(e) => "invalid ENV: " + e + " (must be one of: dev, staging, prod)"
      case PortRequired => "PORT is required"
      case DatabaseUrlRequired => "DATABASE_URL is required"
      case JwtSecretRequired => "JWT_SECRET is required"
      case InvalidOtpStrength(s) => "invalid OTP_STRENGTH: " + s + " (must be 'easy' or 'strong')"
      case StorageUrlRequired => "SUPABASE_STORAGE_URL is required"
      case ServiceRoleKeyRequired => "SUPABASE_SERVICE_KEY_ID is required"
      case ProfileImageBucketRequired => "PROFILE_IMAGE_BUCKET is required"
      case AccessTtlNotPositive => "ACCESS_TOKEN_TTL must be greater than 0"
      case RefreshTtlNotPositive => "REFRESH_TOKEN_TTL must be greater than 0"
    }
  }

  /** `Config.validate`: the first check that fails, in the order the source runs them; None when all pass. */
  function Validate(c: Config): (r: Option<ConfigError>)
    ensures r.None? <==> ValidConfig(c)
  {
    if c.env !in {"dev", "staging", "prod"} then Some(InvalidEnv(c.env))
    else if c.port == "" then Some(PortRequired)
    else if c.databaseUrl == "" then Some(DatabaseUrlRequired)
    else if c.jwtSecret == "" then Some(JwtSecretRequired)
    else if c.otpStrength != OtpEasy && c.otpStrength != OtpStrong then Some(InvalidOtpStrength(c.otpStrength))
    else if c.storageUrl == "" then Some(StorageUrlRequired)
    else if c.serviceRoleKey == "" then Some(ServiceRoleKeyRequired)
    else if c.profileImageBucket == "" then Some(ProfileImageBucketRequired)
    else if c.accessTokenTtl <= 0 then Some(AccessTtlNotPositive)
    else if c.refreshTokenTtl <= 0 then Some(RefreshTtlNotPositive)
    else None
  }

  /** What a valid configuration is, requirement by requirement. */
  predicate ValidConfig(c: Config)
  {
    && (c.env == "dev" || c.env == "staging" || c.env == "prod")
    && c.port != "" && c.databaseUrl != "" && c.jwtSecret != ""
    && (c.otpStrength == OtpEasy || c.otpStrength == OtpStrong)
    && c.storageUrl != "" && c.serviceRoleKey != "" && c.profileImageBucket != ""
    && c.accessTokenTtl > 0 && c.refreshTokenTtl > 0
  }

  /** The position of the check that reports an error, counting from 0 in the order of `validate`. */
  function CheckNumber(e: ConfigError): (k: nat)
    ensures k < 10
  {
    match e
    case InvalidEnv(_) => 0
    case PortRequired => 1
    case DatabaseUrlRequired => 2
    case JwtSecretRequired => 3
    case InvalidOtpStrength(_) => 4
    case StorageUrlRequired => 5
    case ServiceRoleKeyRequired => 6
    case ProfileImageBucketRequired => 7
    case AccessTtlNotPositive => 8
    case RefreshTtlNotPositive => 9
  }

  /** Whether the check at position `k` passes. */
  predicate Passes(c: Config, k: nat)
  {
    if k == 0 then c.env == "dev" || c.env == "staging" || c.env == "prod"
    else if k == 1 then c.port != ""
    else if k == 2 then c.databaseUrl != ""
    else if k == 3 then c.jwtSecret != ""
    else if k == 4 then c.otpStrength == OtpEasy || c.otpStrength == OtpStrong
    else if k == 5 then c.storageUrl != ""
    else if k == 6 then c.serviceRoleKey != ""
    else if k == 7 then c.profileImageBucket != ""
    else if k == 8 then c.accessTokenTtl > 0
    else c.refreshTokenTtl > 0
  }

  /**
   * The error reported is that of a check that fails, every check before it
   * passes, and the offending value is the one the configuration holds.
   */
  lemma ValidateReportsFirst(c: Config)
    requires Validate(c).Some?
    ensures var e := Validate(c).value;
      && !Passes(c, CheckNumber(e))
      && (forall k :: 0 <= k < CheckNumber(e) ==> Passes(c, k))
      && (e.InvalidEnv? ==> e.env == c.env)
      && (e.InvalidOtpStrength? ==> e.strength == c.otpStrength)
  {
  }

  datatype LoadError = InvalidAccessTtl(text: string) | InvalidRefreshTtl(text: string) | Invalid(error: ConfigError)

  /** The configuration `Load` builds, before validation, from the environment and the two durations. */
  function Assemble(env: Env, accessTtl: int, refreshTtl: int): Config
  {
    Config(
      GetEnv(env, "ENV", "dev"),
      GetEnv(env, "PORT", "8080"),
      GetEnv(env, "DATABASE_URL", ""),
      GetEnv(env, "JWT_SECRET", ""),
      GetEnv(env, "OTP_STRENGTH", OtpEasy),
      GetEnv(env, "MAGIC_OTP", ""),
      GetEnv(env, "SUPABASE_STORAGE_URL", ""),
      GetEnv(env, "SUPABASE_SERVICE_KEY_ID", ""),
      GetEnv(env, "PROFILE_IMAGE_BUCKET", ""),
      accessTtl,
      refreshTtl)
  }

  /** A duration variable: the default when unset, its parse when that succeeds, else the text that failed. */
  function TtlSetting(env: Env, key: string, parse: Parser, defaultValue: int): Result<int, string>
  {
    var v := Getenv(env, key);
    if v == "" then Ok(defaultValue)
    else match parse(v)
      case Some(d) => Ok(d)
      case None => Err(v)
  }

  /** What `Load` yields for an environment: the two durations are read first, then the configuration is validated. */
  function Loaded(env: Env, parse: Parser): Result<Config, LoadError>
  {
    match TtlSetting(env, "ACCESS_TOKEN_TTL", parse, DefaultAccessTtl)
    case Err(v) => Err(InvalidAccessTtl(v))
    case Ok(a) =>
      match TtlSetting(env, "REFRESH_TOKEN_TTL", parse, DefaultRefreshTtl)
      case Err(v) => Err(InvalidRefreshTtl(v))
      case Ok(rt) =>
        var cfg := Assemble(env, a, rt);
        match Validate(cfg)
        case Some(e) => Err(Invalid(e))
        case None => Ok(cfg)
  }

  /** `Load`, reassigning the two durations as the source does. */
  method Load(env: Env, parse: Parser) returns (r: Result<Config, LoadError>)
    ensures r == Loaded(env, parse)
    ensures r.Ok? ==> ValidConfig(r.value)
  {
    var accessTtl := DefaultAccessTtl;
    var refreshTtl := DefaultRefreshTtl;
    var v := Getenv(env, "ACCESS_TOKEN_TTL");
    if v != "" {
      var d := parse(v);
      if d.Some? {
        accessTtl := d.value;
      } else {
        return Err(InvalidAccessTtl(v));
      }
    }
    v := Getenv(env, "REFRESH_TOKEN_TTL");
    if v != "" {
      var d := parse(v);
      if d.Some? {
        refreshTtl := d.value;
      } else {
        return Err(InvalidRefreshTtl(v));
      }
    }
    var cfg := Assemble(env, accessTtl, refreshTtl);
    var e := Validate(cfg);
    if e.Some? {
      return Err(Invalid(e.value));
    }
    return Ok(cfg);
  }

  /** With neither duration set, a loaded configuration has the 15-minute and 7-day defaults. */
  lemma LoadDefaults(env: Env, parse: Parser)
    requires Getenv(env, "ACCESS_TOKEN_TTL") == "" && Getenv(env, "REFRESH_TOKEN_TTL") == ""
    ensures Loaded(env, parse).Ok? ==>
      Loaded(env, parse).value.accessTokenTtl == 15 * 60 * 1_000_000_000
      && Loaded(env, parse).value.refreshTokenTtl == 7 * 24 * 3600 * 1_000_000_000
    ensures Loaded(env, parse).Ok? <==> ValidConfig(Assemble(env, DefaultAccessTtl, DefaultRefreshTtl))
  {
  }

  /** A duration text the parser refuses makes `Load` fail, the access one first. */
  lemma LoadRejectsBadTtl(env: Env, parse: Parser)
    requires Getenv(env, "ACCESS_TOKEN_TTL") != "" && parse(Getenv(env, "ACCESS_TOKEN_TTL")).None?
    ensures Loaded(env, parse) == Err(InvalidAccessTtl(Getenv(env, "ACCESS_TOKEN_TTL")))
  {
  }

  /** Unless MAGIC_OTP is set to a non-empty value, the magic code of a loaded configuration is the empty string. */
  lemma MagicOtpDefault(env: Env, parse: Parser)
    requires Getenv(env, "MAGIC_OTP") == ""
    requires Loaded(env, parse).Ok?
    ensures Loaded(env, parse).value.magicOtp == ""
  {
  }

  /** ENV, PORT and OTP_STRENGTH have defaults that pass their checks; the other strings must be set. */
  lemma DefaultsOfLoad(env: Env, a: int, rt: int)
    ensures var c := Assemble(env, a, rt);
      && (Getenv(env, "ENV") == "" ==> c.env == "dev")
      && (Getenv(env, "PORT") == "" ==> c.port == "8080")
      && (Getenv(env, "OTP_STRENGTH") == "" ==> c.otpStrength == OtpEasy)
      && (Getenv(env, "JWT_SECRET") == "" ==> Validate(c).Some?)
  {
  }
}
