// `PostgresSettings` (backend/core/config.py): each field may name environment
// variables in its `env` extra; the constructor takes the first of them that is
// set and lets keyword arguments override the result. The base class then fills
// every field still unset from its own sources (a variable named after the field,
// the `.env` file) and otherwise from the field's default. `get_connection_string`
// prefers an explicit connection string and otherwise assembles a `postgresql://` URL.

module Config {
  import opened Values

  /** The `env` extra of a field: absent, one variable name, or a list of names. */
  datatype EnvSpec = NoEnv | OneName(name: string) | Names(names: seq<string>)

  datatype FieldDecl = FieldDecl(name: string, default: string, env: EnvSpec)

  /** The process environment as `os.getenv` sees it. */
  type Environment = map<string, string>

  /** What pydantic-settings' own sources find for a field that `__init__` does not
      pass on: with `env_prefix=""` and case-insensitive names, a variable named after
      the field in any letter case (`USER`, `PORT`, ...), else an entry of the `.env`
      file. The map from field name to the value found stands for that lookup. */
  type Fallback = map<string, string>

  /** The declared fields of `PostgresSettings`, in declaration order. The connection
      string names one variable whose name happens to contain a comma. */
  const PostgresFields: seq<FieldDecl> := [
    FieldDecl("user", "postgres", OneName("POSTGRES_USER")),
    FieldDecl("password", "", OneName("POSTGRES_PASSWORD")),
    FieldDecl("host", "localhost", OneName("POSTGRES_HOST")),
    FieldDecl("port", "5432", OneName("POSTGRES_PORT")),
    FieldDecl("db", "postgres", OneName("POSTGRES_DB")),
    FieldDecl("connection_string", "", OneName("POSTGRES_CONNECTION_STRING,SUPABASE_CONNECTION_STRING"))
  ]

  datatype PostgresSettings = PostgresSettings(user: string, password: string, host: string,
                                               port: string, db: string, connectionString: string)

  /** A string spec is a single name and is not split; a missing spec names nothing. */
  function EnvNames(spec: EnvSpec): seq<string>
  {
    match spec
    case NoEnv => []
    case OneName(n) => [n]
    case Names(ns) => ns
  }

  /** The value of the first listed variable that is set. */
  function FirstSet(env: Environment, names: seq<string>): Option<string>
  {
    if names == [] then None
    else if names[0] in env then Some(env[names[0]])
    else FirstSet(env, names[1..])
  }

  /** The `env_values` dictionary after the loop over the fields. */
  function EnvValues(fields: seq<FieldDecl>, env: Environment): map<string, string>
  {
    if fields == [] then map[]
    else
      var before := EnvValues(fields[..|fields| - 1], env);
      var f := fields[|fields| - 1];
      match FirstSet(env, EnvNames(f.env))
      case Some(v) => before[f.name := v]
      case None => before
  }

  /** The loop of `PostgresSettings.__init__` that fills `env_values`. */
  method ResolveEnv(fields: seq<FieldDecl>, env: Environment) returns (envValues: map<string, string>)
    ensures envValues == EnvValues(fields, env)
  {
    envValues := map[];
    var i := 0;
    while i < |fields|
      invariant 0 <= i <= |fields|
      invariant envValues == EnvValues(fields[..i], env)
    {
      var names := EnvNames(fields[i].env);
      var j := 0;
      while j < |names|
        invariant 0 <= j <= |names|
        invariant FirstSet(env, names[j..]) == FirstSet(env, names)
        invariant envValues == EnvValues(fields[..i], env)
      {
        var value := if names[j] in env then Some(env[names[j]]) else None;
        if value.Some? {
          envValues := envValues[fields[i].name := value.value];
          break;
        }
        assert names[j..][1..] == names[j + 1..];
        j := j + 1;
      }
      assert fields[..i + 1][..i] == fields[..i];
      i := i + 1;
    }
    assert fields[..|fields|] == fields;
  }

  function Lookup(values: map<string, string>, key: string, default: string): string
  {
    if key in values then values[key] else default
  }

  /** Model construction from the values passed in: known fields are taken, the rest
      come from the base class's sources or default. */
  function Build(values: map<string, string>, fallback: Fallback): PostgresSettings
  {
    var values := fallback + values;
    PostgresSettings(Lookup(values, "user", "postgres"), Lookup(values, "password", ""),
                     Lookup(values, "host", "localhost"), Lookup(values, "port", "5432"),
                     Lookup(values, "db", "postgres"), Lookup(values, "connection_string", ""))
  }

  /** `PostgresSettings(**kwargs)` in environment `env`. For each field a keyword
      argument wins; then the one variable its `env` extra names (the connection
      string's is read under its literal, comma-containing name); then the base
      class's own sources; then the default. */
  function Settings(env: Environment, kwargs: map<string, string>, fallback: Fallback): (r: PostgresSettings)
    ensures r.user == Lookup(kwargs, "user", Lookup(env, "POSTGRES_USER", Lookup(fallback, "user", "postgres")))
    ensures r.password == Lookup(kwargs, "password", Lookup(env, "POSTGRES_PASSWORD", Lookup(fallback, "password", "")))
    ensures r.host == Lookup(kwargs, "host", Lookup(env, "POSTGRES_HOST", Lookup(fallback, "host", "localhost")))
    ensures r.port == Lookup(kwargs, "port", Lookup(env, "POSTGRES_PORT", Lookup(fallback, "port", "5432")))
    ensures r.db == Lookup(kwargs, "db", Lookup(env, "POSTGRES_DB", Lookup(fallback, "db", "postgres")))
    ensures r.connectionString == Lookup(kwargs, "connection_string",
              Lookup(env, "POSTGRES_CONNECTION_STRING,SUPABASE_CONNECTION_STRING", Lookup(fallback, "connection_string", "")))
  {
    EnvironmentLookup(env);
    Build(EnvValues(PostgresFields, env) + kwargs, fallback)
  }

  /** `PostgresSettings.__init__` */
  method NewPostgresSettings(env: Environment, kwargs: map<string, string>, fallback: Fallback) returns (s: PostgresSettings)
    ensures s == Settings(env, kwargs, fallback)
  {
    var envValues := ResolveEnv(PostgresFields, env);
    envValues := envValues + kwargs;
    s := Build(envValues, fallback);
  }

  /** `get_connection_string`: an explicit connection string as it is, otherwise a
      `postgresql://` URL. */
  function GetConnectionString(s: PostgresSettings): (url: string)
    ensures s.connectionString != "" ==> url == s.connectionString
    ensures s.connectionString == "" ==> Scheme <= url
  {
    if s.connectionString != "" then s.connectionString
    else "postgresql://" + s.user + ":" + s.password + "@" + s.host + ":" + s.port + "/" + s.db
  }

  // ---------------------------------------------------------------------
  // A reader for the URL, to show that it determines the settings

  /** The text before and after the first `c`, if there is one. */
  function SplitAt(s: string, c: char): Option<(string, string)>
  {
    if s == [] then None
    else if s[0] == c then Some(([], s[1..]))
    else match SplitAt(s[1..], c)
      case None => None
      case Some((a, b)) => Some(([s[0]] + a, b))
  }

  datatype UrlParts = UrlParts(user: string, password: string, host: string, port: string, db: string)

  const Scheme: string := "postgresql://"

  function ParseUrl(url: string): Option<UrlParts>
  {
    if |url| < |Scheme| || url[..|Scheme|] != Scheme then None
    else match SplitAt(url[|Scheme|..], ':')
      case None => None
      case Some((user, r1)) => match SplitAt(r1, '@')
        case None => None
        case Some((password, r2)) => match SplitAt(r2, ':')
          case None => None
          case Some((host, r3)) => match SplitAt(r3, '/')
            case None => None
            case Some((port, db)) => Some(UrlParts(user, password, host, port, db))
  }

  lemma {:induction false} SplitAtJoin(a: string, c: char, b: string)
    requires c !in a
    ensures SplitAt(a + [c] + b, c) == Some((a, b))
  {
    if a != [] {
      SplitAtJoin(a[1..], c, b);
      assert (a + [c] + b)[1..] == a[1..] + [c] + b;
      assert [a[0]] + a[1..] == a;
    } else {
      assert a + [c] + b == [c] + b;
    }
  }

  // ---------------------------------------------------------------------
  // Properties

  /** Without one, the URL carries every field and can be read back, provided no field
      contains the delimiter that ends it (no percent-encoding is applied). */
  lemma ConnectionUrlRoundTrip(s: PostgresSettings)
    requires s.connectionString == ""
    requires ':' !in s.user && '@' !in s.password && ':' !in s.host && '/' !in s.port
    ensures ParseUrl(GetConnectionString(s)) == Some(UrlParts(s.user, s.password, s.host, s.port, s.db))
  {
    var url := GetConnectionString(s);
    var r3 := s.port + "/" + s.db;
    var r2 := s.host + ":" + r3;
    var r1 := s.password + "@" + r2;
    var rest := s.user + ":" + r1;
    assert url == Scheme + rest;
    assert url[..|Scheme|] == Scheme && url[|Scheme|..] == rest;
    SplitAtJoin(s.user, ':', r1);
    SplitAtJoin(s.password, '@', r2);
    SplitAtJoin(s.host, ':', r3);
    SplitAtJoin(s.port, '/', s.db);
  }

  /** For each field the first listed variable that is set supplies the value; the
      names after it are not consulted. */
  lemma {:induction false} FirstSetWins(env: Environment, names: seq<string>, i: nat)
    requires i < |names| && names[i] in env
    requires forall j :: 0 <= j < i ==> names[j] !in env
    ensures FirstSet(env, names) == Some(env[names[i]])
  {
    if i > 0 {
      FirstSetWins(env, names[1..], i - 1);
    }
  }

  /** No listed variable set means no value from the environment. */
  lemma {:induction false} FirstSetNone(env: Environment, names: seq<string>)
    ensures FirstSet(env, names).None? <==> forall j :: 0 <= j < |names| ==> names[j] !in env
  {
    if names != [] {
      FirstSetNone(env, names[1..]);
      assert forall j :: 1 <= j < |names| ==> names[j] == names[1..][j - 1];
    }
  }

  /** A field is in `env_values` only if one of its variables is set; a field
      without an `env` extra never is. */
  lemma {:induction false} EnvValuesKeys(fields: seq<FieldDecl>, env: Environment, name: string)
    requires forall i :: 0 <= i < |fields| && fields[i].name == name ==> FirstSet(env, EnvNames(fields[i].env)).None?
    ensures name !in EnvValues(fields, env)
  {
    if fields != [] {
      EnvValuesKeys(fields[..|fields| - 1], env, name);
    }
  }

  /** Given every field as a keyword argument, neither the environment nor the base
      class's sources matter any more. */
  lemma KeywordsOverride(env: Environment, kwargs: map<string, string>, fallback: Fallback)
    requires forall k :: k in PostgresFieldNames ==> k in kwargs
    ensures forall env2, fallback2 :: Settings(env2, kwargs, fallback2) == Settings(env, kwargs, fallback)
  {
  }

  const PostgresFieldNames: set<string> := {"user", "password", "host", "port", "db", "connection_string"}

  /** A field with a unique name ends up in `env_values` exactly when one of its
      variables is set, with the value of the first such variable. */
  lemma {:induction false} EnvValuesAt(fields: seq<FieldDecl>, env: Environment, i: nat)
    requires i < |fields|
    requires forall j :: 0 <= j < |fields| && j != i ==> fields[j].name != fields[i].name
    ensures fields[i].name in EnvValues(fields, env) <==> FirstSet(env, EnvNames(fields[i].env)).Some?
    ensures fields[i].name in EnvValues(fields, env) ==>
              EnvValues(fields, env)[fields[i].name] == FirstSet(env, EnvNames(fields[i].env)).value
  {
    var n := |fields| - 1;
    if i < n {
      EnvValuesAt(fields[..n], env, i);
    } else {
      EnvValuesKeys(fields[..n], env, fields[i].name);
    }
  }

  /** `values` has the key `field` exactly when `var_` is set in `env`, and then holds
      that variable's value under it. */
  predicate Reads(values: map<string, string>, env: Environment, field: string, var_: string)
  {
    (field in values <==> var_ in env) && (field in values ==> values[field] == env[var_])
  }

  /** The loop gives each field the value of the one variable its `env` extra names;
      the connection string's is the one variable literally named
      `POSTGRES_CONNECTION_STRING,SUPABASE_CONNECTION_STRING`, so setting either of the
      two names it seems to list has no effect on `env_values`. */
  lemma EnvironmentLookup(env: Environment)
    ensures Reads(EnvValues(PostgresFields, env), env, "user", "POSTGRES_USER")
    ensures Reads(EnvValues(PostgresFields, env), env, "password", "POSTGRES_PASSWORD")
    ensures Reads(EnvValues(PostgresFields, env), env, "host", "POSTGRES_HOST")
    ensures Reads(EnvValues(PostgresFields, env), env, "port", "POSTGRES_PORT")
    ensures Reads(EnvValues(PostgresFields, env), env, "db", "POSTGRES_DB")
    ensures Reads(EnvValues(PostgresFields, env), env, "connection_string", "POSTGRES_CONNECTION_STRING,SUPABASE_CONNECTION_STRING")
  {
    var f := PostgresFields;
    forall i | 0 <= i < 6
      ensures Reads(EnvValues(f, env), env, f[i].name, EnvNames(f[i].env)[0])
    {
      EnvValuesAt(f, env, i);
      assert EnvNames(f[i].env) == [EnvNames(f[i].env)[0]];
    }
    assert f[0].name == "user" && f[1].name == "password" && f[2].name == "host";
    assert f[3].name == "port" && f[4].name == "db" && f[5].name == "connection_string";
  }

  /** With nothing set, the fields take their declared defaults, and a Supabase
      connection string in the environment does not change that. */
  lemma Defaults(v: string)
    ensures Settings(map[], map[], map[]) == PostgresSettings("postgres", "", "localhost", "5432", "postgres", "")
    ensures Settings(map["SUPABASE_CONNECTION_STRING" := v], map[], map[]) == Settings(map[], map[], map[])
  {
  }

  /** A field whose named variable is unset takes what the base class's sources give:
      with `POSTGRES_PORT` unset and, say, `PORT=8080` in the environment, the port is
      "8080" and not the default; once `POSTGRES_PORT` is set, it wins. */
  lemma FallbackFillsGaps(env: Environment, p: string)
    requires "POSTGRES_PORT" !in env
    ensures Settings(env, map[], map["port" := p]).port == p
    ensures Settings(env["POSTGRES_PORT" := "5433"], map[], map["port" := p]).port == "5433"
  {
  }
}
