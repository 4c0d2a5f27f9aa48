/**
 * Model of config.py: the class-level settings of `Config`. An environment variable is an
 * `Option<string>`: None when it is unset.
 */
module Config {
  import opened Wrappers
  import opened Text

  const DefaultSecretKey: string := "une-cle-secrete-par-defaut-pour-le-dev"
  const LocalDatabase: string := "sqlite:///local.db"
  const HerokuScheme: string := "postgres://"
  const SqlAlchemyScheme: string := "postgresql://"

  /** `os.getenv('SECRET_KEY', default)`: the default applies only when the variable is unset. */
  function SecretKey(env: Option<string>): (r: string)
    ensures env.None? ==> r == DefaultSecretKey
    ensures env.Some? ==> r == env.value
  {
    env.GetOr(DefaultSecretKey)
  }

  /** `SQLALCHEMY_DATABASE_URI` as config.py:8-18 computes it from DATABASE_URL. */
  function DatabaseUri(env: Option<string>): (r: string)
    ensures env.Some? && StartsWith(env.value, HerokuScheme) ==> r == SqlAlchemyScheme + env.value[|HerokuScheme|..]
    ensures env.Some? && env.value != [] && !StartsWith(env.value, HerokuScheme) ==> r == env.value
    ensures env.None? || env.value == [] ==> r == LocalDatabase
    ensures !StartsWith(r, HerokuScheme)
  {
    if env.Some? && StartsWith(env.value, HerokuScheme) then
      ReplaceFirstPrefix(env.value, HerokuScheme, SqlAlchemyScheme);
      assert (SqlAlchemyScheme + env.value[|HerokuScheme|..])[8] == SqlAlchemyScheme[8] != HerokuScheme[8];
      ReplaceFirst(env.value, HerokuScheme, SqlAlchemyScheme)
    else if env.Some? && env.value != [] then env.value
    else
      assert LocalDatabase[0] != HerokuScheme[0];
      LocalDatabase
  }
}
