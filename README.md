# cola: the configuration loader generated by `make_conf!`, in Dafny

`make_conf!` takes an ordered list of `"KEY" => name: Type` entries. It
generates a `Configuration` struct with one member per entry (directly
readable, but private to the module that invokes the macro), a
`ConfigError` enum (`ConfigMissing(key)`, `InvalidData(raw)`),
`Configuration::new() -> Result<Configuration, ConfigError>` and a panicking
`Default::default()`. This project models what those generated functions do
when they run. They are written as pure functions over an explicit schema
(`seq<Field<T>>`), an explicit environment (`map<string, string>`, standing
in for `std::env::var`) and an explicit parser (`(T, string) -> Option<V>`,
standing in for `FromStr`).

- `wrappers.dfy`: `Option` and a failure-compatible `Result`. With it, `:-`
  propagates an error the way Rust's `?` does.
- `cola.dfy` (module `Cola`): `ConfigError`, `Field`, `ParseEnv`
  (`parse_env`), `Convert` (`convert`), `LoadField` (one member initialiser
  `convert(parse_env(KEY)?)?`), `New`, `Default` and member access by name.
  A record is the sequence of member values in declaration order.
- `cola_properties.dfy` (module `ColaProperties`): lemmas that hold for every
  schema, environment and parser. They cover completeness, exact error
  attribution, short-circuiting on the first failing field, ordering within
  a field, fields sharing a key, dependence on the declared keys only (no
  caching), panic messages that identify the error, and well-typed records.
  The equivalence of `default` with `new` is `Default`'s own contract.
- `from_str.dfy` (module `FromStr`): a concrete parser for `String` (always
  succeeds, identity) and `bool` (exactly `"true"` / `"false"`). It comes with
  round-trip lemmas against the displayed text. It imports only `Wrappers`.
- `cola_tests.dfy` (module `ColaTests`): the repository's unit tests, as
  lemmas over the environment the test starts from. Each `env::set_var`
  becomes a map update. The tests that need a variable to be unset
  (`FailsOnMissingValue`, `MissingDataReturnsAproposResult`) require that of
  the starting environment; the others hold for every starting environment.
  Three further lemmas are not tests of the repository: `SharedKeyFields`
  mirrors the test schema's two members on one key, `NoCachingBetweenCalls`
  changes a variable between two calls of `new`, and
  `ParsedRecordIsWellTyped` applies the typing lemma to the concrete parser.

`new` reports the error of the first failing field, whatever its kind. An
invalid value in an earlier field is therefore reported ahead of a missing key
in a later field (`NewFailsAtFirstFailure`, `NewReportsMissingKey`).

## Model

| member | source | states |
|---|---|---|
| Cola.ParseEnv | src/lib.rs:120-125 | succeeds exactly when the key is set and returns its value; otherwise `ConfigMissing` carrying the key |
| Cola.Convert | src/lib.rs:111-118 | succeeds exactly when the parser accepts the raw string and returns the parsed value; otherwise `InvalidData` carrying the raw string |
| Cola.LoadField | src/lib.rs:106 | one field loads exactly when its key is set and its value parses; `ConfigMissing(key)` exactly when the key is unset; otherwise `InvalidData` of the raw value |
| Cola.New | src/lib.rs:103-109 | a successful load has exactly one member per declared field, so no partial record is ever built (its members are characterised by `ColaProperties.NewSucceedsIffEveryFieldLoads`) |
| Cola.PanicMessage | src/lib.rs:89-90 | the message for each variant is its fixed text with the error's string in place; injective by `PanicMessageIdentifiesError` |
| Cola.WellFormed | src/lib.rs:77-83 | member names are unique: two fields with the same name are the same field, as Rust demands of a struct |
| Cola.Default | src/lib.rs:85-93 | returns a record exactly when `new` succeeds, and it is `new`'s record; otherwise panics with the message for `new`'s error |
| Cola.Member | src/lib.rs:77-83 | a member name is found exactly when some field declares it |
| ColaProperties.NewSucceedsIffEveryFieldLoads | src/lib.rs:103-109 | `new` succeeds if and only if every field loads, and member `i` is what field `i` loaded |
| ColaProperties.NewSucceedsWhenEveryFieldParses | src/lib.rs:103-109 | completeness: every key set and every value parsable gives success, with each member equal to the parse of its key's raw value |
| ColaProperties.NewFailsAtFirstFailure | src/lib.rs:104-108 | when field `i` is the first failing field, `new` returns exactly that field's error |
| ColaProperties.NewErrorComesFromFirstFailure | src/lib.rs:104-108 | every error of `new` is the error of a first failing field; all fields before it loaded |
| ColaProperties.NewReportsMissingKey | src/lib.rs:120-125 | an unset key with all earlier fields loading gives `ConfigMissing` carrying exactly that key |
| ColaProperties.NewReportsInvalidValue | src/lib.rs:111-118 | a set key whose value does not parse, with all earlier fields loading, gives `InvalidData` carrying the raw value, not the key |
| ColaProperties.NewErrorPayload | src/lib.rs:71-74 | a `ConfigMissing` payload is an unset declared key; an `InvalidData` payload is the raw value of a set declared key that fails its field's parse |
| ColaProperties.NewIgnoresFieldsAfterFailure | src/lib.rs:104-108 | replacing every field after the first failing one by anything leaves the result unchanged |
| ColaProperties.NewSingleField | src/lib.rs:104-108 | a one-field schema yields that field's value as a one-member record, or its error |
| ColaProperties.NewAppend | src/lib.rs:104-108 | loading a concatenation of schemas is loading the first and then the second, with the first error winning and the records concatenated |
| ColaProperties.MissingKeyIsReportedBeforeParsing | src/lib.rs:106 | an unset key gives `ConfigMissing` whatever the parser is; no parse is consulted |
| ColaProperties.SharedKeyFieldsParseTheSameRaw | src/lib.rs:136-137 | two fields with one key each hold their own type's parse of the same raw value |
| ColaProperties.FieldLoadsAsIfAlone | src/lib.rs:104-108 | in a successful load, each member equals what a schema holding only that field loads |
| ColaProperties.NewReadsOnlyDeclaredKeys | src/lib.rs:120-125 | two environments that agree on every declared key give the same result |
| ColaProperties.NewSeesSetVariable | src/lib.rs:120-125 | after setting a variable, fields reading it hold the new value's parse; setting an undeclared variable changes nothing |
| ColaProperties.PanicMessageIdentifiesError | src/lib.rs:89-90 | distinct errors give distinct panic messages, so the message determines the variant and its string |
| ColaProperties.MemberIsDeclaredField | src/lib.rs:77-83 | with unique member names, reading member `name` gives the value loaded for the field of that name |
| FromStr.Parse | src/lib.rs:114 | `String` parses to the unchanged text; `bool` parses to `true` / `false` exactly for `"true"` / `"false"` and fails on every other text; every value it yields has the requested type |
| FromStr.ParseInvertsRender | src/lib.rs:114 | parsing a value's displayed text under its own type gives the value back |
| FromStr.RenderInvertsParse | src/lib.rs:114 | every accepted text is the displayed form of the parsed value |
| ColaProperties.LoadedRecordIsWellTyped | src/lib.rs:81 | when the parser yields only values of the requested type, every member of a loaded record has its field's declared type |
| ColaTests.ParsedRecordIsWellTyped | src/lib.rs:81 | every member loaded with the `String`/`bool` parser has its field's declared type |
| ColaTests.ExpectedTypes | src/lib.rs:143-159 | after the test's settings, `default` returns `("TEST_STRING_VALUE", true, false)`, and `test_string`, `test_boolean` and `test_false_boolean` read back by name |
| ColaTests.ShadowsOtherConfigurations | src/lib.rs:161-174 | an inner schema over the same environment returns its own member only, and `definitely_new_value` reads back as `"TEST_STRING_VALUE"` |
| ColaTests.FailsOnMissingValue | src/lib.rs:176-186 | with the key unset, `default` panics with the message naming the key |
| ColaTests.AllowsCallingNewDirectly | src/lib.rs:188-196 | `new` returns `Ok(true)` for the flag |
| ColaTests.MissingDataReturnsAproposResult | src/lib.rs:198-209 | `new` returns `ConfigMissing("DEFINITELY_DOES_NOT_EXIST")` |
| ColaTests.InvalidDataReturnsAproposResult | src/lib.rs:211-224 | `new` returns `InvalidData("potato")` for a `bool` field |
| ColaTests.SharedKeyFields | src/lib.rs:134-141 | one key under a `String` and a `bool` member: `"true"` loads both; `"potato"` fails on the `bool` member with the raw value |
| ColaTests.NoCachingBetweenCalls | src/lib.rs:120-125 | two calls with the variable changed in between each see the value of their own call |

## Left out

- The macro machinery itself (src/lib.rs:64-83): generating the struct, its `#[doc]` attributes and the scope in which it is declared. Shadowing one configuration by another is modelled as a second schema over the same environment.
- The real process environment and `env::set_var`: the environment is a map parameter, and a set is a map update. Concurrent mutation of the environment by other threads is not modelled. Each test lemma assumes that the test's `set_var` calls and its call of `new` or `default` happen with nothing in between. The repository's tests set `TEST_TRUE_ENV_KEY` to different values (src/lib.rs:148, 191, 216), and the test runner may run them on parallel threads sharing one environment. So `it_makes_the_conf_struct_with_expected_types` could read `"potato"` and panic; the model does not capture that interference.
- Values that are not valid Unicode: `std::env::var` reports such a value as an error, and `parse_env` turns every error into `ConfigMissing(key)`. The model's environment holds only strings, so that case cannot arise in it.
- The grammars of `FromStr` for `u32`, `i32` and `f32`: that is standard-library code. The loader and its lemmas hold for any parser; the concrete parser covers only `String` and `bool`.
- ColaTests.ExpectedTypes: states only the test's `String` and `bool` members; `test_number`, `test_float_num` and `test_neg_num` (src/lib.rs:136-138, 154-156) are left out because the numeric parsers are not modelled.
- ColaTests.SharedKeyFields: the test schema shares `TEST_INT_ENV_KEY` between a `u32` and an `f32` member (src/lib.rs:136-137); the lemma shows the same sharing with a `String` and a `bool` member, because numeric and floating-point parsing are not modelled.
- Process termination: a panic is the outcome `Panic(message)` carrying the message text `default` formats. Unwinding and the exit status are not modelled.
