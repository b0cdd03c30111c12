/**
 * Agent configuration, read from the process environment. The environment
 * is a map from variable name to value; an unset variable reads as "".
 */
module Config {

  const ServerVar := "PINGVE_SERVER"
  const TokenVar := "PINGVE_TOKEN"
  const SecureVar := "PINGVE_SECURE"

  datatype Config = Config(serverAddr: string, token: string, secure: bool)

  /** os.Getenv: the value, or "" when the variable is unset. */
  function Getenv(env: map<string, string>, name: string): string
  {
    if name in env then env[name] else ""
  }

  /** LoadConfig is total: every environment, even an empty one, yields a
      Config; each field comes from its own PINGVE_ variable. */
  function LoadConfig(env: map<string, string>): (c: Config)
    ensures c.serverAddr == if ServerVar in env then env[ServerVar] else ""
    ensures c.token == if TokenVar in env then env[TokenVar] else ""
    ensures c.secure <==> SecureVar in env && env[SecureVar] == "true"
  {
    Config(Getenv(env, ServerVar), Getenv(env, TokenVar), Getenv(env, SecureVar) == "true")
  }

  /** With nothing set, the agent gets an empty address and token and an
      insecure transport. */
  lemma LoadConfigEmpty()
    ensures LoadConfig(map[]) == Config("", "", false)
  {
  }

  /** Secure is an exact, case-sensitive comparison with "true". */
  lemma SecureNeedsExactTrue(env: map<string, string>)
    ensures SecureVar in env && env[SecureVar] in {"TRUE", "True", "1", "yes", ""} ==> !LoadConfig(env).secure
  {
  }

  /** Only the three PINGVE_ variables are read: environments that agree on
      them give the same Config, whatever else they hold. */
  lemma LoadConfigReadsOnlyPingveVars(e1: map<string, string>, e2: map<string, string>)
    requires forall name :: name in {ServerVar, TokenVar, SecureVar} ==>
      (name in e1 <==> name in e2) && (name in e1 ==> e1[name] == e2[name])
    ensures LoadConfig(e1) == LoadConfig(e2)
  {
  }
}
