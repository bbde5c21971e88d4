/**
 * Environment validation (`config.py`): `Config.from_env` reads the process
 * environment, insists on the bucket and the API, fills in defaults and
 * checks the upper-cased log level; `get_config` builds the configuration
 * once and hands out the cached one afterwards.
 */
module Configuration {
  import opened Py

  /** The environment: `os.environ` as a map from variable name to value. */
  type Env = map<string, string>

  /** The dataclass `Config`; `Optional[str]` fields are `Option<string>`. */
  datatype Config = Config(
    invictusBucket: string,
    invictusWeightliftingApi: string,
    invictusWeightliftingApiCatId: string,
    invictusUser: Option<string>,
    invictusPass: Option<string>,
    invictusSecretName: Option<string>,
    idempotencyTable: string,
    dynamodbTable: string,
    awsRegion: string,
    logLevel: string)

  /** `os.environ.get(name)` */
  function Get(env: Env, name: string): (r: Option<string>)
    ensures r.Some? <==> name in env
    ensures r.Some? ==> r.value == env[name]
  {
    if name in env then Some(env[name]) else None
  }

  /** `os.environ.get(name, default)` */
  function GetOr(env: Env, name: string, default: string): (r: string)
    ensures name !in env ==> r == default
    ensures name in env ==> r == env[name]
  {
    if name in env then env[name] else default
  }

  /** `not os.environ.get(name)`: the variable is unset or empty. */
  predicate Missing(env: Env, name: string) {
    name !in env || env[name] == ""
  }

  // ---------------------------------------------------------------------------
  // str.upper()

  /**
   * The upper case of one character: ASCII letters, and the two non-ASCII
   * characters whose upper case is an ASCII letter (dotless i and long s).
   */
  function UpperChar(c: char): (u: char)
    ensures 'a' <= c <= 'z' ==> u as int == c as int - 32
    ensures !('a' <= c <= 'z') && c != 'ı' && c != 'ſ' ==> u == c
  {
    if 'a' <= c <= 'z' then (c as int - 32) as char
    else if c == 'ı' then 'I'
    else if c == 'ſ' then 'S'
    else c
  }

  /** `s.upper()` */
  function Upper(s: string): (u: string)
    ensures |u| == |s| && forall i :: 0 <= i < |s| ==> u[i] == UpperChar(s[i])
  {
    if |s| == 0 then "" else [UpperChar(s[0])] + Upper(s[1..])
  }

  /** Upper-casing twice changes nothing more. */
  lemma UpperIdempotent(s: string)
    ensures Upper(Upper(s)) == Upper(s)
  {
    var u := Upper(s);
    forall i | 0 <= i < |u|
      ensures Upper(u)[i] == u[i]
    {
      assert u[i] == UpperChar(s[i]);
    }
  }

  // ---------------------------------------------------------------------------
  // Config.from_env

  const ValidLogLevels: set<string> := {"DEBUG", "INFO", "WARNING", "ERROR", "CRITICAL"}

  /** One display order of the set `valid_log_levels`; the order Python prints depends on string hashing. */
  predicate IsDisplayOrder(order: seq<string>) {
    && |order| == |ValidLogLevels|
    && (forall i :: 0 <= i < |order| ==> order[i] in ValidLogLevels)
    && (forall i, j :: 0 <= i < j < |order| ==> order[i] != order[j])
  }

  /** The elements of a sequence without repeats are as many as its length. */
  lemma {:induction false} DistinctElements(xs: seq<string>)
    requires forall i, j :: 0 <= i < j < |xs| ==> xs[i] != xs[j]
    ensures |set i | 0 <= i < |xs| :: xs[i]| == |xs|
    decreases |xs|
  {
    if |xs| > 0 {
      var rest := xs[..|xs| - 1];
      DistinctElements(rest);
      var e, er := set i | 0 <= i < |xs| :: xs[i], set i | 0 <= i < |rest| :: rest[i];
      assert e == er + {xs[|xs| - 1]};
      assert xs[|xs| - 1] !in er;
    }
  }

  /** A display order lists every valid level exactly once. */
  lemma DisplayOrderComplete(order: seq<string>, level: string)
    requires IsDisplayOrder(order) && level in ValidLogLevels
    ensures exists i :: 0 <= i < |order| && order[i] == level
  {
    var e := set i | 0 <= i < |order| :: order[i];
    DistinctElements(order);
    assert e <= ValidLogLevels;
    assert |ValidLogLevels - e| == 0;
    assert level in e;
  }

  /** `repr` of a set of strings, shown in the given order. */
  function SetRepr(order: seq<string>): (s: string)
    ensures |s| >= 2 && s[0] == '{' && s[|s| - 1] == '}'
  {
    "{" + ReprElements(order) + "}"
  }

  function ReprElements(order: seq<string>): string {
    if |order| == 0 then ""
    else if |order| == 1 then "'" + order[0] + "'"
    else "'" + order[0] + "', " + ReprElements(order[1..])
  }

  const RequiredSuffix: string := " environment variable is required"
  const BucketMessage: string := "INVICTUS_BUCKET" + RequiredSuffix
  const ApiMessage: string := "INVICTUS_WEIGHTLIFTING_API" + RequiredSuffix

  function LogLevelMessage(order: seq<string>, level: string): string {
    "LOG_LEVEL must be one of " + SetRepr(order) + ", got: " + level
  }

  /**
   * `Config.from_env()`. `order` is the order in which Python happens to
   * print the set of valid levels in the error message.
   */
  function FromEnv(env: Env, order: seq<string>): (r: Result<Config>)
    requires IsDisplayOrder(order)
    ensures r.Ok? ==> r.value.logLevel in ValidLogLevels
  {
    if Missing(env, "INVICTUS_BUCKET") then Err(Exc(ValueError, BucketMessage))
    else if Missing(env, "INVICTUS_WEIGHTLIFTING_API") then Err(Exc(ValueError, ApiMessage))
    else
      var level := Upper(GetOr(env, "LOG_LEVEL", "INFO"));
      if level !in ValidLogLevels then Err(Exc(ValueError, LogLevelMessage(order, level)))
      else
        Ok(Config(
          invictusBucket := env["INVICTUS_BUCKET"],
          invictusWeightliftingApi := env["INVICTUS_WEIGHTLIFTING_API"],
          invictusWeightliftingApiCatId := GetOr(env, "INVICTUS_WEIGHTLIFTING_API_CAT_ID", "213"),
          invictusUser := Get(env, "INVICTUS_USER"),
          invictusPass := Get(env, "INVICTUS_PASS"),
          invictusSecretName := Get(env, "INVICTUS_SECRET_NAME"),
          idempotencyTable := GetOr(env, "IDEMPOTENCY_TABLE", ""),
          dynamodbTable := GetOr(env, "DYNAMODB_TABLE", ""),
          awsRegion := GetOr(env, "AWS_REGION", "us-east-1"),
          logLevel := level))
  }

  /** The level message is told apart from the two missing-variable messages by its first letter. */
  lemma MessagesDiffer(order: seq<string>, level: string)
    ensures LogLevelMessage(order, level) != BucketMessage && LogLevelMessage(order, level) != ApiMessage
  {
    assert LogLevelMessage(order, level)[0] == 'L';
    assert BucketMessage[0] == 'I' && ApiMessage[0] == 'I';
  }

  /** The bucket is checked first: without it nothing else is looked at. */
  lemma BucketRequired(env: Env, order: seq<string>)
    requires IsDisplayOrder(order)
    ensures FromEnv(env, order) == Err(Exc(ValueError, BucketMessage)) <==> Missing(env, "INVICTUS_BUCKET")
  {
    assert BucketMessage[9] == 'B';
    assert ApiMessage[9] == 'W';
    MessagesDiffer(order, Upper(GetOr(env, "LOG_LEVEL", "INFO")));
  }

  /** With the bucket present, a missing or empty API is the error. */
  lemma ApiRequired(env: Env, order: seq<string>)
    requires IsDisplayOrder(order) && !Missing(env, "INVICTUS_BUCKET")
    ensures FromEnv(env, order) == Err(Exc(ValueError, ApiMessage)) <==> Missing(env, "INVICTUS_WEIGHTLIFTING_API")
  {
    MessagesDiffer(order, Upper(GetOr(env, "LOG_LEVEL", "INFO")));
  }

  /** The configuration is accepted exactly when both required variables are set and the upper-cased level is valid. */
  lemma Accepted(env: Env, order: seq<string>)
    requires IsDisplayOrder(order)
    ensures FromEnv(env, order).Ok? <==>
      !Missing(env, "INVICTUS_BUCKET") && !Missing(env, "INVICTUS_WEIGHTLIFTING_API")
      && Upper(GetOr(env, "LOG_LEVEL", "INFO")) in ValidLogLevels
  {
  }

  /** An unacceptable level is reported, upper-cased, in the message. */
  lemma LevelRejected(env: Env, order: seq<string>)
    requires IsDisplayOrder(order)
    requires !Missing(env, "INVICTUS_BUCKET") && !Missing(env, "INVICTUS_WEIGHTLIFTING_API")
    requires Upper(GetOr(env, "LOG_LEVEL", "INFO")) !in ValidLogLevels
    ensures "LOG_LEVEL" in env
    ensures var r := FromEnv(env, order);
      r.Err? && r.exc.cls == ValueError
      && r.exc.message == "LOG_LEVEL must be one of " + SetRepr(order) + ", got: " + Upper(env["LOG_LEVEL"])
  {
    assert Upper("INFO") == "INFO";
  }

  /** Every present variable is copied verbatim (the level upper-cased); absent ones take their defaults. */
  lemma Fields(env: Env, order: seq<string>)
    requires IsDisplayOrder(order) && FromEnv(env, order).Ok?
    ensures var c := FromEnv(env, order).value;
      && c.invictusBucket == env["INVICTUS_BUCKET"] != ""
      && c.invictusWeightliftingApi == env["INVICTUS_WEIGHTLIFTING_API"] != ""
      && c.invictusWeightliftingApiCatId == (if "INVICTUS_WEIGHTLIFTING_API_CAT_ID" in env then env["INVICTUS_WEIGHTLIFTING_API_CAT_ID"] else "213")
      && (c.invictusUser == None <==> "INVICTUS_USER" !in env)
      && ("INVICTUS_USER" in env ==> c.invictusUser == Some(env["INVICTUS_USER"]))
      && (c.invictusPass == None <==> "INVICTUS_PASS" !in env)
      && ("INVICTUS_PASS" in env ==> c.invictusPass == Some(env["INVICTUS_PASS"]))
      && (c.invictusSecretName == None <==> "INVICTUS_SECRET_NAME" !in env)
      && ("INVICTUS_SECRET_NAME" in env ==> c.invictusSecretName == Some(env["INVICTUS_SECRET_NAME"]))
      && c.idempotencyTable == (if "IDEMPOTENCY_TABLE" in env then env["IDEMPOTENCY_TABLE"] else "")
      && c.dynamodbTable == (if "DYNAMODB_TABLE" in env then env["DYNAMODB_TABLE"] else "")
      && c.awsRegion == (if "AWS_REGION" in env then env["AWS_REGION"] else "us-east-1")
      && c.logLevel == (if "LOG_LEVEL" in env then Upper(env["LOG_LEVEL"]) else "INFO")
  {
    assert Upper("INFO") == "INFO";
  }

  /** A level written in any mix of cases that upper-cases to a valid name is accepted and stored as that name. */
  lemma AnyCaseLevel(env: Env, order: seq<string>, name: string)
    requires IsDisplayOrder(order) && name in ValidLogLevels
    requires !Missing(env, "INVICTUS_BUCKET") && !Missing(env, "INVICTUS_WEIGHTLIFTING_API")
    requires "LOG_LEVEL" in env && Upper(env["LOG_LEVEL"]) == name
    ensures FromEnv(env, order).Ok? && FromEnv(env, order).value.logLevel == name
  {
    Accepted(env, order);
    Fields(env, order);
  }

  // ---------------------------------------------------------------------------
  // get_config

  /** The module-global `_config` and the `get_config` that fills it. */
  class ConfigCache {
    var cached: Option<Config>

    /** `_config: Optional[Config] = None` at import. */
    constructor ()
      ensures cached == None
    {
      cached := None;
    }

    /** `get_config()`: the first successful call builds the configuration; later calls return it, whatever the environment says. */
    method GetConfig(env: Env, order: seq<string>) returns (r: Result<Config>)
      requires IsDisplayOrder(order)
      modifies this
      ensures old(cached).Some? ==> r == Ok(old(cached).value) && cached == old(cached)
      ensures old(cached).None? ==> r == FromEnv(env, order)
      ensures old(cached).None? ==> cached == (if r.Ok? then Some(r.value) else None)
    {
      if cached.None? {
        var c :- FromEnv(env, order);
        cached := Some(c);
      }
      r := Ok(cached.value);
    }

    /** `config._config = None`, as the tests do to force a rebuild. */
    method Reset()
      modifies this
      ensures cached == None
    {
      cached := None;
    }
  }
}
