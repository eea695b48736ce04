/** Configuration loading: four environment variables turned into the
    service's configuration, with defaults for the port and the primary domain
    and a fatal error when TLS material is missing. */
module Config {

  /** The process environment; a variable that is not set reads as "". */
  type Environment = map<string, string>

  /** The values `Read` stores in the package-level variables. */
  datatype Configuration = Configuration(port: string, primaryDomain: string, tlsKey: string, tlsCert: string)

  /** Either the loaded configuration or the message of the fatal log call
      that ends the process. */
  datatype Outcome = Loaded(config: Configuration) | Fatal(message: string)

  const DefaultPort := "9999"
  const MissingKeyMessage := "TLS_KEY config variable must be set"
  const MissingCertMessage := "TLS_CERT config variable must be set"

  /** Reads a variable the way the process environment does: unset is "". */
  function Getenv(env: Environment, key: string): (v: string)
    ensures key !in env ==> v == ""
    ensures key in env ==> v == env[key]
  {
    if key in env then env[key] else ""
  }

  /** Loads the configuration, one variable after another: the port (with its
      default), the primary domain (defaulting to the already-defaulted port),
      then the TLS key and the TLS certificate, each fatal when empty. */
  function Read(env: Environment): (r: Outcome)
    ensures Getenv(env, "TLS_KEY") == "" ==> r == Fatal(MissingKeyMessage)
    ensures Getenv(env, "TLS_KEY") != "" && Getenv(env, "TLS_CERT") == "" ==> r == Fatal(MissingCertMessage)
    ensures r.Loaded? <==> Getenv(env, "TLS_KEY") != "" && Getenv(env, "TLS_CERT") != ""
    ensures r.Loaded? ==> r.config.port == (if Getenv(env, "PORT") == "" then DefaultPort else Getenv(env, "PORT"))
    ensures r.Loaded? ==> r.config.port != ""
    ensures r.Loaded? ==> r.config.primaryDomain == (if Getenv(env, "PRIMARY_DOMAIN") == "" then "localhost:" + r.config.port else Getenv(env, "PRIMARY_DOMAIN"))
    ensures r.Loaded? ==> r.config.tlsKey == Getenv(env, "TLS_KEY") && r.config.tlsCert == Getenv(env, "TLS_CERT")
  {
    var port := if Getenv(env, "PORT") == "" then DefaultPort else Getenv(env, "PORT");
    var primaryDomain := if Getenv(env, "PRIMARY_DOMAIN") == "" then "localhost:" + port else Getenv(env, "PRIMARY_DOMAIN");
    var tlsKey := Getenv(env, "TLS_KEY");
    if tlsKey == "" then
      Fatal(MissingKeyMessage)
    else
      var tlsCert := Getenv(env, "TLS_CERT");
      if tlsCert == "" then
        Fatal(MissingCertMessage)
      else
        Loaded(Configuration(port, primaryDomain, tlsKey, tlsCert))
  }

  /** The environment that sets every variable to the value of a configuration. */
  function EnvironmentOf(c: Configuration): (env: Environment)
    ensures Getenv(env, "PORT") == c.port && Getenv(env, "PRIMARY_DOMAIN") == c.primaryDomain
    ensures Getenv(env, "TLS_KEY") == c.tlsKey && Getenv(env, "TLS_CERT") == c.tlsCert
  {
    map["PORT" := c.port, "PRIMARY_DOMAIN" := c.primaryDomain, "TLS_KEY" := c.tlsKey, "TLS_CERT" := c.tlsCert]
  }

  /** Defaulting is idempotent: exporting a loaded configuration back into the
      environment and reading it again yields the same configuration. */
  lemma ReadIsStable(env: Environment)
    requires Read(env).Loaded?
    ensures Read(EnvironmentOf(Read(env).config)) == Read(env)
  {
  }

  /** The key check comes first: with no key, the certificate does not matter. */
  lemma KeyCheckedBeforeCert(env: Environment, cert: string)
    requires Getenv(env, "TLS_KEY") == ""
    ensures Read(env["TLS_CERT" := cert]) == Read(env) == Fatal(MissingKeyMessage)
  {
  }
}
