/**
 * The bot's configuration (`BotConfig` in config.py): its defaults, the
 * credential check `validate()`, and `from_env()`, which reads four
 * environment variables. The environment is a map parameter.
 */
module Config {
  import opened Decimals

  datatype BotConfig = BotConfig(
    apiKey: string,
    apiSecret: string,
    testnet: bool,
    testnetBaseUrl: string,
    defaultSymbol: string,
    defaultQuantity: Decimal,
    logLevel: string,
    logFile: string)

  /** `BotConfig()` with every field at its declared default; also `DEFAULT_CONFIG`. */
  function DefaultConfig(): (c: BotConfig)
    ensures !Validate(c) && c.apiKey == "" && c.apiSecret == ""
    ensures c.testnet && c.testnetBaseUrl == "https://testnet.binancefuture.com"
    ensures c.defaultSymbol == "BTCUSDT" && c.defaultQuantity == Decimal(1, 3)
    ensures c.logLevel == "INFO" && c.logFile == "trading_bot.log"
  {
    BotConfig("", "", true, "https://testnet.binancefuture.com", "BTCUSDT", Decimal(1, 3), "INFO", "trading_bot.log")
  }

  /** `validate()`: both credentials must be set. */
  function Validate(c: BotConfig): (ok: bool)
    ensures ok <==> |c.apiKey| > 0 && |c.apiSecret| > 0
  {
    if c.apiKey == "" || c.apiSecret == "" then false else true
  }

  /** `os.getenv(name, default)`. */
  function GetEnv(env: map<string, string>, name: string, default: string): (v: string)
    ensures name in env ==> v == env[name]
    ensures name !in env ==> v == default
  {
    if name in env then env[name] else default
  }

  /** `str.lower()` on one character; only ASCII letters are mapped. */
  function LowerChar(c: char): char
  {
    if 'A' <= c <= 'Z' then (c as int + 32) as char else c
  }

  function Lower(s: string): (r: string)
    ensures |r| == |s|
    ensures forall i :: 0 <= i < |s| ==> r[i] == LowerChar(s[i])
  {
    seq(|s|, i requires 0 <= i < |s| => LowerChar(s[i]))
  }

  /** The environment variable is the word "true" in any mix of upper and lower case. */
  predicate SpellsTrue(s: string)
  {
    |s| == 4 && s[0] in "tT" && s[1] in "rR" && s[2] in "uU" && s[3] in "eE"
  }

  /**
   * `from_env()`: credentials and log level from the environment (empty and
   * "INFO" when unset), testnet from BINANCE_TESTNET (on when unset), every
   * other field at its default.
   */
  function FromEnv(env: map<string, string>): (c: BotConfig)
    ensures c.apiKey == GetEnv(env, "BINANCE_API_KEY", "")
    ensures c.apiSecret == GetEnv(env, "BINANCE_API_SECRET", "")
    ensures c.logLevel == GetEnv(env, "LOG_LEVEL", "INFO")
    ensures c.testnetBaseUrl == DefaultConfig().testnetBaseUrl && c.defaultSymbol == DefaultConfig().defaultSymbol
    ensures c.defaultQuantity == DefaultConfig().defaultQuantity && c.logFile == DefaultConfig().logFile
  {
    DefaultConfig().(
      apiKey := GetEnv(env, "BINANCE_API_KEY", ""),
      apiSecret := GetEnv(env, "BINANCE_API_SECRET", ""),
      testnet := Lower(GetEnv(env, "BINANCE_TESTNET", "true")) == "true",
      logLevel := GetEnv(env, "LOG_LEVEL", "INFO"))
  }

  lemma LowerIsTrue(s: string)
    ensures Lower(s) == "true" <==> SpellsTrue(s)
  {
    if SpellsTrue(s) {
      assert Lower(s) == "true";
    }
    if Lower(s) == "true" {
      assert LowerChar(s[0]) == 't' && LowerChar(s[1]) == 'r' && LowerChar(s[2]) == 'u' && LowerChar(s[3]) == 'e';
    }
  }

  /** Testnet is on exactly when BINANCE_TESTNET is unset or spells "true" in any case ("1" or "yes" turn it off). */
  lemma TestnetFromEnv(env: map<string, string>)
    ensures FromEnv(env).testnet <==> "BINANCE_TESTNET" !in env || SpellsTrue(env["BINANCE_TESTNET"])
  {
    LowerIsTrue(GetEnv(env, "BINANCE_TESTNET", "true"));
  }

  /** A configuration from the environment passes `validate()` exactly when both credential variables are set and non-empty. */
  lemma ValidFromEnv(env: map<string, string>)
    ensures Validate(FromEnv(env)) <==> && "BINANCE_API_KEY" in env && env["BINANCE_API_KEY"] != ""
                                        && "BINANCE_API_SECRET" in env && env["BINANCE_API_SECRET"] != ""
  {
  }

  /** An empty environment gives the default configuration, which does not pass `validate()` and uses the testnet. */
  lemma EmptyEnvIsDefault()
    ensures FromEnv(map[]) == DefaultConfig()
    ensures !Validate(DefaultConfig()) && DefaultConfig().testnet
  {
    LowerIsTrue("true");
  }
}
