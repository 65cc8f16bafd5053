/** Start-up validation of the process environment (`validateEnv`). */
module EnvValidation {
  import opened Wrappers
  import opened Text
  import opened Numerals

  /** The process environment; an unset variable is absent from the map. */
  type Env = map<string, string>

  const DatabaseUrl := "DATABASE_URL"
  const BotToken := "TELEGRAM_BOT_TOKEN"
  const Port := "PORT"
  const RequiredEnvVars := [DatabaseUrl, BotToken]
  const PostgresScheme := "postgresql://"

  /** `process.env[name]` is truthy: set and not empty. */
  predicate IsSet(env: Env, name: string) {
    name in env && env[name] != ""
  }

  /** `requiredEnvVars.filter(v => !process.env[v])`: the unset ones of the two, in list order. */
  function MissingVars(env: Env): (missing: seq<string>)
    ensures forall v :: v in missing <==> v in RequiredEnvVars && !IsSet(env, v)
  {
    (if IsSet(env, DatabaseUrl) then [] else [DatabaseUrl]) + (if IsSet(env, BotToken) then [] else [BotToken])
  }

  /** `names.join(sep)`. */
  function Join(names: seq<string>, sep: string): string {
    if names == [] then "" else if |names| == 1 then names[0] else names[0] + sep + Join(names[1..], sep)
  }

  /** The message logged for missing variables. */
  function MissingMessage(env: Env): string {
    "Missing required environment variables: " + Join(MissingVars(env), ", ")
  }

  /**
   * `validateEnv()`: `Pass` where the source returns true; `Fail` with the message it logs
   * where it returns false. Checks run in the source's order, the first failure wins.
   */
  function ValidateEnv(env: Env): (r: Outcome<string>)
    ensures r.Pass? <==> IsSet(env, DatabaseUrl) && IsSet(env, BotToken)
                         && PostgresScheme <= env[DatabaseUrl]
                         && (!IsSet(env, Port) || IsNumericText(env[Port]))
    ensures !(IsSet(env, DatabaseUrl) && IsSet(env, BotToken))
            ==> r == Fail(MissingMessage(env))
    ensures IsSet(env, DatabaseUrl) && IsSet(env, BotToken) && !(PostgresScheme <= env[DatabaseUrl])
            ==> r == Fail("DATABASE_URL must be a valid PostgreSQL connection string starting with postgresql://")
    ensures IsSet(env, DatabaseUrl) && IsSet(env, BotToken) && PostgresScheme <= env[DatabaseUrl] && r.Fail?
            ==> r == Fail("PORT must be a valid number")
  {
    var missing := MissingVars(env);
    if |missing| > 0 then
      assert missing[0] in missing;
      Fail(MissingMessage(env))
    else
      assert DatabaseUrl in RequiredEnvVars && BotToken in RequiredEnvVars;
      if !(PostgresScheme <= env[DatabaseUrl]) then
        Fail("DATABASE_URL must be a valid PostgreSQL connection string starting with postgresql://")
      else if IsSet(env, Port) && !IsNumericText(env[Port]) then
        Fail("PORT must be a valid number")
      else Pass
  }

  /** With only the bot token unset, the message names exactly it. */
  lemma MissingTokenReported(env: Env)
    requires IsSet(env, DatabaseUrl) && !IsSet(env, BotToken)
    ensures MissingMessage(env) == "Missing required environment variables: " + BotToken
  {
    assert MissingVars(env) == [BotToken];
  }

  /** Both required variables unset are reported together, in list order. */
  lemma BothMissingReported(env: Env)
    requires !IsSet(env, DatabaseUrl) && !IsSet(env, BotToken)
    ensures MissingMessage(env) == "Missing required environment variables: " + DatabaseUrl + ", " + BotToken
  {
    var m := MissingVars(env);
    assert m == [DatabaseUrl, BotToken];
    assert m[1..] == [BotToken];
    assert Join(m, ", ") == DatabaseUrl + ", " + BotToken;
    Reassociate("Missing required environment variables: ", DatabaseUrl + ", ", BotToken);
  }

  /** An unset or empty PORT never fails validation. */
  lemma UnsetPortIgnored(env: Env)
    requires !IsSet(env, Port)
    ensures ValidateEnv(env).Pass? <==> IsSet(env, DatabaseUrl) && IsSet(env, BotToken) && PostgresScheme <= env[DatabaseUrl]
  {
  }

  /** A PORT made of decimal digits is accepted. */
  lemma DigitPortAccepted(env: Env)
    requires IsSet(env, DatabaseUrl) && IsSet(env, BotToken) && PostgresScheme <= env[DatabaseUrl]
    requires Port in env && env[Port] != [] && AllDigits(env[Port])
    ensures ValidateEnv(env) == Pass
  {
    DigitsAreNumeric(env[Port]);
  }

  /** A PORT that starts with a letter is rejected. */
  lemma WordPortRejected(env: Env)
    requires IsSet(env, DatabaseUrl) && IsSet(env, BotToken) && PostgresScheme <= env[DatabaseUrl]
    requires Port in env && env[Port] != [] && 'a' <= env[Port][0] <= 'z' && AllWord(env[Port])
    ensures ValidateEnv(env) == Fail("PORT must be a valid number")
  {
    assert IsSet(env, Port);
    WordIsNotNumeric(env[Port]);
  }

  lemma WordIsNotNumeric(p: string)
    requires p != [] && 'a' <= p[0] <= 'z' && AllWord(p)
    ensures !IsNumericText(p)
  {
    assert Trim(p) == p by {
      assert !IsSpace(p[0]) && !IsSpace(p[|p| - 1]);
      assert p == [] + p + [];
      TrimOfPadded([], p, []);
    }
    assert !IsNonDecimalInteger(p) by { assert p[0] != '0'; }
    assert p[0] !in "+-";
    assert !IsUnsignedDecimal(p) by {
      assert p != "Infinity" by { assert p[0] != "Infinity"[0]; }
      assert DigitRun(p, 0) == 0;
    }
  }
}
