/** The configuration checks at the start of `setup` in the API bootstrap, and
    the per-request `client` header check it installs.

    `setup` stops at the first failed check (`logThrowError`), so the checks
    become one function that yields the first error or the resolved database
    configuration, together with the process environment after `setup`
    forced `NODE_ENV`. */
module ApiBootstrap {
  import opened Wrappers

  /** `config.database` of one environment; every field may be absent. */
  datatype DbConfig = DbConfig(
    driver: Option<string>,
    url: Option<string>,
    host: Option<string>,
    port: Option<string>,
    database: Option<string>,
    user: Option<string>,
    password: Option<string>)

  /** One environment's configuration (`envs[name]`), as far as `setup` reads it. */
  datatype EnvConfig = EnvConfig(database: Option<DbConfig>, checkClientOnDev: bool)

  datatype SetupError =
    | Fatal(message: string)  // `logThrowError(message)`
    | TypeError               // `config.database.driver` read with no `config.database`

  /** What a successful `setup` leaves behind: the selected environment, its
      configuration with the database parameters resolved, and `process.env`. */
  datatype Resolved = Resolved(nodeEnv: string, config: EnvConfig, processEnv: map<string, string>)

  const MsgNoApp := "You must pass app as first parameter to amBootstrap"
  const MsgNoEnvs := "You must pass envs as second parameter to amBootstrap"
  const MsgNoPackage := "You must pass package as third parameter to amBootstrap"
  const MsgInlineUrl :=
    "Database URL are not allowed in prod config anymore. Use heroku env DATABASE_URL to store it."
  const MsgInlineParams :=
    "Database (host,port,database,user and password) are not allowed in prod/staging config anymore. Use heroku envs to store it."
  const MsgNoDevelopment :=
    "You should pass the complete 'envs' objects as second parameter to amBootstrap, not more 'config'. Bootstrap will load the right env config."
  const MsgHeroku := "API cannot run on heroku without NODE_ENV defined. You must set it!"

  function MsgMissingEnv(env: string): string {
    "Missing config for '" + env + "' env in config.js"
  }

  function MsgNoDriver(env: string): string {
    "config.database.driver not set on current env \"" + env + "\""
  }

  function MsgUnknownDriver(env: string): string {
    "config.database.driver not recognized on env \"" + env + "\". It must be \"mongoose\" or \"sequelize\"."
  }

  function MsgNoUrl(env: string): string {
    "config.database.url not set on current env \"" + env + "\""
  }

  function MsgSequelizeParams(env: string): string {
    "config.database missing params (for sequelize) on env \"" + env + "\""
  }

  function MsgUnset(variable: string): string {
    "Enviroment variable " + variable + " are not set"
  }

  /** The variables a Heroku-hosted Sequelize database is read from, in the
      order they are checked. */
  const HerokuDbVars: seq<string> :=
    ["DATABASE_HOST", "DATABASE_DATABASE", "DATABASE_USER", "DATABASE_PORT", "DATABASE_PASSWORD"]

  function EnvVar(penv: map<string, string>, name: string): Option<string> {
    if name in penv then Some(penv[name]) else None
  }

  /** The environments whose database parameters come from the process environment. */
  predicate ProdLike(env: string) {
    env == "production" || env == "staging"
  }

  predicate HasInlineParams(db: DbConfig) {
    Truthy(db.host) || Truthy(db.port) || Truthy(db.database) || Truthy(db.user) || Truthy(db.password)
  }

  predicate HasSequelizeParams(db: DbConfig) {
    Truthy(db.host) && Truthy(db.database) && Truthy(db.user) && Truthy(db.password)
  }

  /** The rejection of database parameters written into the production or
      staging configuration. */
  function InlineCheck(envs: map<string, EnvConfig>, name: string): (r: Option<string>)
    ensures r.Some? ==> name in envs && envs[name].database.Some?
    ensures r.Some? ==> r.value == MsgInlineUrl || r.value == MsgInlineParams
    ensures r == Some(MsgInlineUrl) <==>
              name in envs && envs[name].database.Some? &&
              envs[name].database.value.driver == Some("mongoose") && Truthy(envs[name].database.value.url)
    ensures r == Some(MsgInlineParams) <==>
              name in envs && envs[name].database.Some? &&
              envs[name].database.value.driver == Some("sequelize") && HasInlineParams(envs[name].database.value)
  {
    if name in envs && envs[name].database.Some? then
      var db := envs[name].database.value;
      if db.driver == Some("mongoose") && Truthy(db.url) then Some(MsgInlineUrl)
      else if db.driver == Some("sequelize") && HasInlineParams(db) then Some(MsgInlineParams)
      else None
    else None
  }

  /** The position of the first variable among `names` that is unset or empty. */
  function FirstUnset(penv: map<string, string>, names: seq<string>): (r: Option<nat>)
    ensures r.Some? ==> r.value < |names| && !Truthy(EnvVar(penv, names[r.value]))
    ensures r.Some? ==> forall k :: 0 <= k < r.value ==> Truthy(EnvVar(penv, names[k]))
    ensures r.None? ==> forall k :: 0 <= k < |names| ==> Truthy(EnvVar(penv, names[k]))
  {
    if names == [] then None
    else if !Truthy(EnvVar(penv, names[0])) then Some(0)
    else
      match FirstUnset(penv, names[1..])
      case None => None
      case Some(k) => Some(k + 1)
  }

  /** Lines 62-101 of lib/apiBootstrap.js: check the driver and resolve the
      selected environment's database parameters. `requireInline` says whether
      the parameters must be written in the configuration (the code as written
      always demands it). */
  function ResolveDatabase(env: string, database: Option<DbConfig>, penv: map<string, string>,
                           requireInline: bool): (r: Result<DbConfig, SetupError>)
    ensures database.None? ==> r == Failure(TypeError)
    ensures database.Some? ==>
      var db := database.value;
      && (!Truthy(db.driver) ==> r == Failure(Fatal(MsgNoDriver(env))))
      && (Truthy(db.driver) && db.driver.value != "mongoose" && db.driver.value != "sequelize" ==>
            r == Failure(Fatal(MsgUnknownDriver(env))))
      && (db.driver == Some("mongoose") && requireInline && !Truthy(db.url) ==>
            r == Failure(Fatal(MsgNoUrl(env))))
      && (db.driver == Some("mongoose") && (!requireInline || Truthy(db.url)) && ProdLike(env) &&
          !Truthy(EnvVar(penv, "DATABASE_URL")) ==>
            r == Failure(Fatal(MsgUnset("DATABASE_URL"))))
      && (db.driver == Some("sequelize") && requireInline && !HasSequelizeParams(db) ==>
            r == Failure(Fatal(MsgSequelizeParams(env))))
      && (db.driver == Some("sequelize") && (!requireInline || HasSequelizeParams(db)) && ProdLike(env) &&
          FirstUnset(penv, HerokuDbVars).Some? ==>
            r == Failure(Fatal(MsgUnset(HerokuDbVars[FirstUnset(penv, HerokuDbVars).value]))))
  {
    if database.None? then Failure(TypeError)
    else
      var db := database.value;
      if !Truthy(db.driver) then Failure(Fatal(MsgNoDriver(env)))
      else if db.driver.value != "mongoose" && db.driver.value != "sequelize" then
        Failure(Fatal(MsgUnknownDriver(env)))
      else if db.driver.value == "mongoose" then
        if requireInline && !Truthy(db.url) then Failure(Fatal(MsgNoUrl(env)))
        else if ProdLike(env) then
          if !Truthy(EnvVar(penv, "DATABASE_URL")) then Failure(Fatal(MsgUnset("DATABASE_URL")))
          else Success(db.(url := EnvVar(penv, "DATABASE_URL")))
        else Success(db)
      else
        if requireInline && !HasSequelizeParams(db) then Failure(Fatal(MsgSequelizeParams(env)))
        else if ProdLike(env) then
          match FirstUnset(penv, HerokuDbVars)
          case Some(k) => Failure(Fatal(MsgUnset(HerokuDbVars[k])))
          case None =>
            Success(db.(host := EnvVar(penv, "DATABASE_HOST"),
                        database := EnvVar(penv, "DATABASE_DATABASE"),
                        user := EnvVar(penv, "DATABASE_USER"),
                        port := EnvVar(penv, "DATABASE_PORT"),
                        password := EnvVar(penv, "DATABASE_PASSWORD")))
        else Success(db)
  }

  /** The checks of `setup` in order. `intended` selects the corrected
      reading in which production and staging need no inline parameters. */
  function SetupWith(app: bool, envs: Option<map<string, EnvConfig>>, packag: bool,
                     penv: map<string, string>, intended: bool): Result<Resolved, SetupError>
  {
    if !app then Failure(Fatal(MsgNoApp))
    else if envs.None? then Failure(Fatal(MsgNoEnvs))
    else if !packag then Failure(Fatal(MsgNoPackage))
    else
      var es := envs.value;
      if InlineCheck(es, "production").Some? then Failure(Fatal(InlineCheck(es, "production").value))
      else if InlineCheck(es, "staging").Some? then Failure(Fatal(InlineCheck(es, "staging").value))
      else if "development" !in es then Failure(Fatal(MsgNoDevelopment))
      else if OnHerokuWithoutNodeEnv(penv) then Failure(Fatal(MsgHeroku))
      else
        var env, penv' := SelectedEnv(penv), ForcedEnv(penv);
        if env !in es then Failure(Fatal(MsgMissingEnv(env)))
        else
          var config := es[env];
          match ResolveDatabase(env, config.database, penv', !intended || !ProdLike(env))
          case Failure(e) => Failure(e)
          case Success(db) => Success(Resolved(env, config.(database := Some(db)), penv'))
  }

  /** `NODE_ENV` is unset while `NODE` mentions heroku. */
  predicate OnHerokuWithoutNodeEnv(penv: map<string, string>) {
    "NODE_ENV" !in penv && Truthy(EnvVar(penv, "NODE")) && Contains(penv["NODE"], "heroku")
  }

  /** The environment `setup` selects: `NODE_ENV`, or `development` when unset. */
  function SelectedEnv(penv: map<string, string>): string {
    if "NODE_ENV" in penv then penv["NODE_ENV"] else "development"
  }

  /** `process.env` after `setup` has forced `NODE_ENV`. */
  function ForcedEnv(penv: map<string, string>): (r: map<string, string>)
    ensures "NODE_ENV" in r && r["NODE_ENV"] == SelectedEnv(penv)
    ensures forall v :: v in penv && v != "NODE_ENV" ==> v in r && r[v] == penv[v]
  {
    if "NODE_ENV" in penv then penv else penv["NODE_ENV" := "development"]
  }

  /** Every check before the selected environment's own is passed. */
  predicate PassesEarlyChecks(app: bool, envs: Option<map<string, EnvConfig>>, packag: bool,
                              penv: map<string, string>)
  {
    && app && envs.Some? && packag
    && InlineCheck(envs.value, "production").None? && InlineCheck(envs.value, "staging").None?
    && "development" in envs.value
    && !OnHerokuWithoutNodeEnv(penv)
  }

  /** The validation part of `setup(app, envs, package)` as written. Whatever
      it accepts is a development-like environment whose database
      configuration is used as given. */
  function Validate(app: bool, envs: Option<map<string, EnvConfig>>, packag: bool,
                    penv: map<string, string>): (r: Result<Resolved, SetupError>)
    ensures r.Success? ==>
      && envs.Some? && r.value.nodeEnv in envs.value
      && !ProdLike(r.value.nodeEnv)
      && r.value.config == envs.value[r.value.nodeEnv]
  {
    var r := SetupWith(app, envs, packag, penv, false);
    if r.Success? then
      SetupSound(app, envs, packag, penv, false);
      r
    else r
  }

  /** The validation with the production and staging parameters taken from
      the process environment only, as the rejection messages ask. Outside
      production and staging it is the code as written. */
  function ValidateIntended(app: bool, envs: Option<map<string, EnvConfig>>, packag: bool,
                            penv: map<string, string>): (r: Result<Resolved, SetupError>)
    ensures !("NODE_ENV" in penv && ProdLike(penv["NODE_ENV"])) ==> r == Validate(app, envs, packag, penv)
    ensures r.Success? && ProdLike(r.value.nodeEnv) ==>
      && r.value.config.database.Some?
      && var db := r.value.config.database.value;
      && (db.driver == Some("mongoose") ==> db.url == EnvVar(penv, "DATABASE_URL") && Truthy(db.url))
      && (db.driver == Some("sequelize") ==>
            && HasSequelizeParams(db) && Truthy(db.port)
            && db.host == EnvVar(penv, "DATABASE_HOST") && db.port == EnvVar(penv, "DATABASE_PORT")
            && db.database == EnvVar(penv, "DATABASE_DATABASE") && db.user == EnvVar(penv, "DATABASE_USER")
            && db.password == EnvVar(penv, "DATABASE_PASSWORD"))
  {
    var r := SetupWith(app, envs, packag, penv, true);
    if r.Success? then
      SetupSound(app, envs, packag, penv, true);
      r
    else r
  }

  /** The argument and configuration-shape checks come first, in this order. */
  lemma ValidationOrder(app: bool, envs: Option<map<string, EnvConfig>>, packag: bool,
                        penv: map<string, string>)
    ensures !app ==> Validate(app, envs, packag, penv) == Failure(Fatal(MsgNoApp))
    ensures app && envs.None? ==> Validate(app, envs, packag, penv) == Failure(Fatal(MsgNoEnvs))
    ensures app && envs.Some? && !packag ==> Validate(app, envs, packag, penv) == Failure(Fatal(MsgNoPackage))
    ensures app && envs.Some? && packag && InlineCheck(envs.value, "production").Some? ==>
              Validate(app, envs, packag, penv) == Failure(Fatal(InlineCheck(envs.value, "production").value))
    ensures app && envs.Some? && packag && InlineCheck(envs.value, "production").None? &&
            InlineCheck(envs.value, "staging").Some? ==>
              Validate(app, envs, packag, penv) == Failure(Fatal(InlineCheck(envs.value, "staging").value))
    ensures app && envs.Some? && packag && InlineCheck(envs.value, "production").None? &&
            InlineCheck(envs.value, "staging").None? && "development" !in envs.value ==>
              Validate(app, envs, packag, penv) == Failure(Fatal(MsgNoDevelopment))
  {
  }

  /** What a successful validation guarantees, in both readings: the selected
      environment is `NODE_ENV`, or `development` which is then written to
      `NODE_ENV`; its driver is one of the two known ones with the parameters
      that driver needs; in production and staging they come from the
      process environment. */
  lemma {:induction false} SetupSound(app: bool, envs: Option<map<string, EnvConfig>>, packag: bool,
                                      penv: map<string, string>, intended: bool)
    requires SetupWith(app, envs, packag, penv, intended).Success?
    ensures var r := SetupWith(app, envs, packag, penv, intended).value;
      && app && packag && envs.Some?
      && "development" in envs.value
      && r.nodeEnv in envs.value
      && ("NODE_ENV" in penv ==> r.nodeEnv == penv["NODE_ENV"] && r.processEnv == penv)
      && ("NODE_ENV" !in penv ==> r.nodeEnv == "development" && r.processEnv == penv["NODE_ENV" := "development"])
      && r.config.checkClientOnDev == envs.value[r.nodeEnv].checkClientOnDev
      && r.config.database.Some?
      && var db := r.config.database.value;
      && (db.driver == Some("mongoose") || db.driver == Some("sequelize"))
      && (db.driver == Some("mongoose") ==> Truthy(db.url))
      && (db.driver == Some("sequelize") ==> HasSequelizeParams(db))
      && (ProdLike(r.nodeEnv) && db.driver == Some("mongoose") ==> db.url == EnvVar(penv, "DATABASE_URL"))
      && (ProdLike(r.nodeEnv) && db.driver == Some("sequelize") ==>
            db.host == EnvVar(penv, "DATABASE_HOST") && db.port == EnvVar(penv, "DATABASE_PORT") &&
            db.database == EnvVar(penv, "DATABASE_DATABASE") && db.user == EnvVar(penv, "DATABASE_USER") &&
            db.password == EnvVar(penv, "DATABASE_PASSWORD") && Truthy(db.port))
      && (!ProdLike(r.nodeEnv) ==> db == envs.value[r.nodeEnv].database.value)
  {
    var es := envs.value;
    var env, penv' := SelectedEnv(penv), ForcedEnv(penv);
    assert env in es;
    var res := ResolveDatabase(env, es[env].database, penv', !intended || !ProdLike(env));
    assert res.Success?;
    if ProdLike(env) {
      assert "NODE_ENV" in penv;
      assert penv' == penv;
      if res.value.driver == Some("sequelize") {
        var f := FirstUnset(penv, HerokuDbVars);
        assert f.None?;
        assert forall k :: 0 <= k < |HerokuDbVars| ==> Truthy(EnvVar(penv, HerokuDbVars[k]));
        assert Truthy(EnvVar(penv, HerokuDbVars[0])) && Truthy(EnvVar(penv, HerokuDbVars[1]));
        assert Truthy(EnvVar(penv, HerokuDbVars[2])) && Truthy(EnvVar(penv, HerokuDbVars[3]));
        assert Truthy(EnvVar(penv, HerokuDbVars[4]));
      }
    }
  }

  /** The code as written can never set up production or staging: lines 27-38
      of lib/apiBootstrap.js reject the inline parameters that lines 68-81 then
      demand. */
  lemma ProductionNeverValidates(app: bool, envs: Option<map<string, EnvConfig>>, packag: bool,
                                 penv: map<string, string>)
    requires "NODE_ENV" in penv && ProdLike(penv["NODE_ENV"])
    ensures Validate(app, envs, packag, penv).Failure?
  {
  }

  /** In the corrected reading a production configuration that names only
      its driver validates, with the URL taken from `DATABASE_URL`. */
  lemma IntendedProductionFromEnvironment(envs: map<string, EnvConfig>, penv: map<string, string>,
                                          clientCheck: bool)
    requires "development" in envs && "production" in envs
    requires envs["production"] == EnvConfig(Some(DbConfig(Some("mongoose"), None, None, None, None, None, None)), clientCheck)
    requires InlineCheck(envs, "staging").None?
    requires "NODE_ENV" in penv && penv["NODE_ENV"] == "production"
    requires Truthy(EnvVar(penv, "DATABASE_URL"))
    ensures ValidateIntended(true, Some(envs), true, penv)
         == Success(Resolved("production",
                             EnvConfig(Some(DbConfig(Some("mongoose"), EnvVar(penv, "DATABASE_URL"),
                                                     None, None, None, None, None)), clientCheck),
                             penv))
  {
    assert InlineCheck(envs, "production").None?;
  }

  /** Without `NODE_ENV` on Heroku the setup stops, whatever else is given. */
  lemma HerokuNeedsNodeEnv(envs: map<string, EnvConfig>, penv: map<string, string>)
    requires InlineCheck(envs, "production").None? && InlineCheck(envs, "staging").None?
    requires "development" in envs
    requires "NODE_ENV" !in penv && "NODE" in penv && Contains(penv["NODE"], "heroku")
    ensures Validate(true, Some(envs), true, penv) == Failure(Fatal(MsgHeroku))
  {
  }

  /** Once the early checks pass, a missing configuration for the selected
      environment is reported, and otherwise any error of its database checks
      is the error of the whole setup. */
  lemma ReachesDatabaseChecks(app: bool, envs: Option<map<string, EnvConfig>>, packag: bool,
                              penv: map<string, string>, intended: bool)
    requires PassesEarlyChecks(app, envs, packag, penv)
    ensures var r, es, env := SetupWith(app, envs, packag, penv, intended), envs.value, SelectedEnv(penv);
      && (env !in es ==> r == Failure(Fatal(MsgMissingEnv(env))))
      && (env in es ==>
            var res := ResolveDatabase(env, es[env].database, ForcedEnv(penv), !intended || !ProdLike(env));
            res.Failure? ==> r == Failure(res.error))
  {
  }

  /** The driver checks of `setup` in terms of the configuration: with the
      early checks passed, a missing or unknown driver, and a driver without
      its parameters, each stop the setup with their own message. */
  lemma DriverErrors(app: bool, envs: Option<map<string, EnvConfig>>, packag: bool,
                     penv: map<string, string>, intended: bool)
    requires PassesEarlyChecks(app, envs, packag, penv)
    requires SelectedEnv(penv) in envs.value && envs.value[SelectedEnv(penv)].database.Some?
    ensures var r, env := SetupWith(app, envs, packag, penv, intended), SelectedEnv(penv);
      var db, inline := envs.value[env].database.value, !intended || !ProdLike(env);
      && (!Truthy(db.driver) ==> r == Failure(Fatal(MsgNoDriver(env))))
      && (Truthy(db.driver) && db.driver.value != "mongoose" && db.driver.value != "sequelize" ==>
            r == Failure(Fatal(MsgUnknownDriver(env))))
      && (db.driver == Some("mongoose") && inline && !Truthy(db.url) ==>
            r == Failure(Fatal(MsgNoUrl(env))))
      && (db.driver == Some("sequelize") && inline && !HasSequelizeParams(db) ==>
            r == Failure(Fatal(MsgSequelizeParams(env))))
  {
    ReachesDatabaseChecks(app, envs, packag, penv, intended);
  }

  /** The deployment variables of `setup`: in production or staging, once the
      driver's own checks pass, an unset `DATABASE_URL` (mongoose) or the first
      unset of the `DATABASE_*` variables, in checking order (sequelize), stops
      the setup with a message naming it. */
  lemma DeploymentErrors(app: bool, envs: Option<map<string, EnvConfig>>, packag: bool,
                         penv: map<string, string>, intended: bool)
    requires PassesEarlyChecks(app, envs, packag, penv)
    requires SelectedEnv(penv) in envs.value && envs.value[SelectedEnv(penv)].database.Some?
    requires ProdLike(SelectedEnv(penv))
    ensures var r, env := SetupWith(app, envs, packag, penv, intended), SelectedEnv(penv);
      var db := envs.value[env].database.value;
      && (db.driver == Some("mongoose") && (intended || Truthy(db.url)) &&
          !Truthy(EnvVar(penv, "DATABASE_URL")) ==>
            r == Failure(Fatal(MsgUnset("DATABASE_URL"))))
      && (db.driver == Some("sequelize") && (intended || HasSequelizeParams(db)) ==>
            forall k :: FirstUnset(penv, HerokuDbVars) == Some(k) ==>
              r == Failure(Fatal(MsgUnset(HerokuDbVars[k]))))
  {
    ReachesDatabaseChecks(app, envs, packag, penv, intended);
    assert ForcedEnv(penv) == penv;
  }

  /** A development-like configuration with a known driver and that driver's
      parameters validates, and is used exactly as given. */
  lemma DevelopmentValidates(envs: map<string, EnvConfig>, penv: map<string, string>, db: DbConfig)
    requires PassesEarlyChecks(true, Some(envs), true, penv)
    requires SelectedEnv(penv) in envs && !ProdLike(SelectedEnv(penv))
    requires envs[SelectedEnv(penv)].database == Some(db)
    requires (db.driver == Some("mongoose") && Truthy(db.url)) ||
             (db.driver == Some("sequelize") && HasSequelizeParams(db))
    ensures Validate(true, Some(envs), true, penv)
         == Success(Resolved(SelectedEnv(penv), envs[SelectedEnv(penv)], ForcedEnv(penv)))
  {
    var config := envs[SelectedEnv(penv)];
    assert config.(database := Some(db)) == config;
  }

  // ------------------------------------------------------------------
  // The `client` header
  // ------------------------------------------------------------------

  const AllowedClients: seq<string> := ["admin", "web", "mobile", "client"]
  const MsgNoClient := "Are you my client?"
  const MsgUnknownClient := "Are you really my client?"

  /** The middleware installed when `config.security.checkClientOnDev` is set:
      a request passes when the check is off, or its `client` header names one
      of the known clients. */
  function ClientCheck(checkClientOnDev: bool, client: Option<string>): (r: Outcome<string>)
    ensures r == Pass <==> !checkClientOnDev || (client.Some? && client.value in AllowedClients)
    ensures r == Fail(MsgNoClient) <==> checkClientOnDev && !Truthy(client)
    ensures r == Fail(MsgUnknownClient) <==>
              checkClientOnDev && Truthy(client) && client.value !in AllowedClients
  {
    if !checkClientOnDev then Pass
    else if !Truthy(client) then Fail(MsgNoClient)
    else if client.value !in AllowedClients then Fail(MsgUnknownClient)
    else Pass
  }
}
