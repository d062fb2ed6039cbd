/** The runtime loader that `make_conf!` generates, written as functions over an
    explicit schema, an explicit environment and an explicit parser.

    A schema is the ordered list of `"KEY" => name: Type` entries of one macro
    invocation. The generated `Configuration` record is the sequence of member
    values, in declaration order. The process environment read by
    `std::env::var` is a map from variable names to their values, and the
    `FromStr` capability of the target types is a parser from a type token and
    a raw string to an optional value. */
module Cola {
  import opened Wrappers

  /** The generated `ConfigError` enum. */
  datatype ConfigError =
    | ConfigMissing(key: string)  // the environment variable is not set
    | InvalidData(raw: string)    // its value does not parse; carries the value, not the key

  /** One `"KEY" => name: Type` entry. `T` is the set of type tokens. */
  datatype Field<T> = Field(key: string, name: string, ty: T)

  /** The process environment at the moment of the call. */
  type Env = map<string, string>

  /** `FromStr`: parse a raw string as a value of the given target type. */
  type Parser<-T, V> = (T, string) -> Option<V>

  /** What `Default::default` does: give back a record, or panic with a message. */
  datatype Outcome<R> = Returned(record: R) | Panic(message: string)

  /** Member names are unique within one schema; Rust refuses a struct with a
      repeated field name, so every schema that compiles has this property. */
  ghost predicate WellFormed<T>(schema: seq<Field<T>>): (r: bool)
    ensures r <==> forall i, j :: 0 <= i < |schema| && 0 <= j < |schema| && schema[i].name == schema[j].name ==> i == j
  {
    forall i, j :: 0 <= i < j < |schema| ==> schema[i].name != schema[j].name
  }

  /** `parse_env`: look the key up; a missing variable is reported by its key. */
  function ParseEnv(env: Env, key: string): (r: Result<string, ConfigError>)
    ensures r.Ok? <==> key in env
    ensures r.Ok? ==> r.value == env[key]
    ensures r.Err? ==> r.error == ConfigMissing(key)
  {
    if key in env then Ok(env[key]) else Err(ConfigMissing(key))
  }

  /** `convert`: parse the raw string; a failure is reported by the raw string. */
  function Convert<T, V>(parse: Parser<T, V>, ty: T, source: string): (r: Result<V, ConfigError>)
    ensures r.Ok? <==> parse(ty, source).Some?
    ensures r.Ok? ==> r.value == parse(ty, source).value
    ensures r.Err? ==> r.error == InvalidData(source)
  {
    match parse(ty, source)
    case Some(value) => Ok(value)
    case None => Err(InvalidData(source))
  }

  /** One member initialiser of `new`: `convert::<T>(parse_env(KEY)?)?`. */
  function LoadField<T, V>(env: Env, parse: Parser<T, V>, f: Field<T>): (r: Result<V, ConfigError>)
    ensures r.Ok? <==> f.key in env && parse(f.ty, env[f.key]).Some?
    ensures r.Ok? ==> r.value == parse(f.ty, env[f.key]).value
    ensures r == Err(ConfigMissing(f.key)) <==> f.key !in env
    ensures r.Err? && f.key in env ==> r.error == InvalidData(env[f.key])
  {
    var raw :- ParseEnv(env, f.key);
    Convert(parse, f.ty, raw)
  }

  /** `Configuration::new`: load every field in declaration order, stopping at
      the first field that fails; a record is built only when every field
      loaded, and it has one member per field. */
  function New<T, V>(schema: seq<Field<T>>, env: Env, parse: Parser<T, V>): (r: Result<seq<V>, ConfigError>)
    ensures r.Ok? ==> |r.value| == |schema|
  {
    if schema == [] then Ok([])
    else
      var v :- LoadField(env, parse, schema[0]);
      var rest :- New(schema[1..], env, parse);
      Ok([v] + rest)
  }

  /** The diagnostic `default` panics with for a given error: a fixed text per
      variant with the error's string in place. */
  function PanicMessage(e: ConfigError): (m: string)
    ensures e.ConfigMissing? ==> |m| == 21 + |e.key| && m[..10] == "The value " && m[10..10 + |e.key|] == e.key
    ensures e.InvalidData? ==> |m| == 30 + |e.raw| && m[..19] == "The data stored in " && m[19..19 + |e.raw|] == e.raw
  {
    match e
    case ConfigMissing(reason) => "The value " + reason + " is missing"
    case InvalidData(reason) => "The data stored in " + reason + " is invalid"
  }

  /** `Default::default`: the record `new` yields, or a panic naming the error. */
  function Default<T, V>(schema: seq<Field<T>>, env: Env, parse: Parser<T, V>): (o: Outcome<seq<V>>)
    ensures o.Returned? <==> New(schema, env, parse).Ok?
    ensures o.Returned? ==> o.record == New(schema, env, parse).value
    ensures o.Panic? ==> o.message == PanicMessage(New(schema, env, parse).error)
  {
    match New(schema, env, parse)
    case Ok(config) => Returned(config)
    case Err(e) => Panic(PanicMessage(e))
  }

  /** Reading the member called `name` of a record built for `schema`. */
  function Member<T, V>(schema: seq<Field<T>>, record: seq<V>, name: string): (r: Option<V>)
    requires |record| == |schema|
    ensures r.Some? <==> exists i :: 0 <= i < |schema| && schema[i].name == name
  {
    if schema == [] then None
    else if schema[0].name == name then Some(record[0])
    else
      var r := Member(schema[1..], record[1..], name);
      assert forall i :: 1 <= i < |schema| ==> schema[i] == schema[1..][i - 1];
      assert r.Some? ==> exists i :: 1 <= i < |schema| && schema[i].name == name;
      r
  }
}
