/** The repository's unit tests, as lemmas over the environment each test
    starts from; each `set_var` call becomes a map update. Tests that need a
    variable unset require that of the starting environment. The last three
    lemmas are not tests of the repository. */
module ColaTests {
  import opened Wrappers
  import opened Cola
  import opened FromStr
  import ColaProperties

  /** The String and bool fields of the test module's `make_conf!`. */
  const ModuleSchema: seq<Field<Ty>> := [
    Field("TEST_STRING_ENV_KEY", "test_string", StringTy),
    Field("TEST_TRUE_ENV_KEY", "test_boolean", BoolTy),
    Field("TEST_FALSE_ENV_KEY", "test_false_boolean", BoolTy)
  ]

  const MissingSchema: seq<Field<Ty>> := [Field("DEFINITELY_DOES_NOT_EXIST", "definitely_maybe", StringTy)]

  const FlagSchema: seq<Field<Ty>> := [Field("TEST_TRUE_ENV_KEY", "test_boolean", BoolTy)]

  /** The environment after `it_makes_the_conf_struct_with_expected_types` sets its variables. */
  function ExpectedTypesEnv(env: Env): Env {
    env["TEST_STRING_ENV_KEY" := "TEST_STRING_VALUE"]["TEST_INT_ENV_KEY" := "1"]["TEST_NEG_ENV_KEY" := "-1"]
       ["TEST_TRUE_ENV_KEY" := "true"]["TEST_FALSE_ENV_KEY" := "false"]
  }

  /** it_makes_the_conf_struct_with_expected_types: `default` returns the record
      with the string and both flags. */
  lemma ExpectedTypes(env: Env)
    ensures Default(ModuleSchema, ExpectedTypesEnv(env), Parse)
            == Returned([Text("TEST_STRING_VALUE"), Flag(true), Flag(false)])
    ensures Member(ModuleSchema, [Text("TEST_STRING_VALUE"), Flag(true), Flag(false)], "test_string")
            == Some(Text("TEST_STRING_VALUE"))
    ensures Member(ModuleSchema, [Text("TEST_STRING_VALUE"), Flag(true), Flag(false)], "test_boolean")
            == Some(Flag(true))
    ensures Member(ModuleSchema, [Text("TEST_STRING_VALUE"), Flag(true), Flag(false)], "test_false_boolean")
            == Some(Flag(false))
  {
    var e := ExpectedTypesEnv(env);
    assert e["TEST_STRING_ENV_KEY"] == "TEST_STRING_VALUE";
    assert e["TEST_TRUE_ENV_KEY"] == "true" && e["TEST_FALSE_ENV_KEY"] == "false";
    ColaProperties.NewSingleField(ModuleSchema[2], e, Parse);
    ColaProperties.NewCons(ModuleSchema[1], [ModuleSchema[2]], e, Parse);
    ColaProperties.NewCons(ModuleSchema[0], [ModuleSchema[1], ModuleSchema[2]], e, Parse);
    assert ModuleSchema == [ModuleSchema[0]] + [ModuleSchema[1], ModuleSchema[2]];
    assert [ModuleSchema[1], ModuleSchema[2]] == [ModuleSchema[1]] + [ModuleSchema[2]];
    assert LoadField(e, Parse, ModuleSchema[0]) == Ok(Text("TEST_STRING_VALUE"));
    assert LoadField(e, Parse, ModuleSchema[1]) == Ok(Flag(true));
    assert LoadField(e, Parse, ModuleSchema[2]) == Ok(Flag(false));
    assert [Text("TEST_STRING_VALUE")] + ([Flag(true)] + [Flag(false)]) == [Text("TEST_STRING_VALUE"), Flag(true), Flag(false)];
  }

  /** shadows_other_configurations: an inner schema over the same environment
      loads its own member only. */
  lemma ShadowsOtherConfigurations(env: Env)
    ensures var inner := [Field("TEST_STRING_ENV_KEY", "definitely_new_value", StringTy)];
            && Default(inner, env["TEST_STRING_ENV_KEY" := "TEST_STRING_VALUE"], Parse)
               == Returned([Text("TEST_STRING_VALUE")])
            && Member(inner, [Text("TEST_STRING_VALUE")], "definitely_new_value") == Some(Text("TEST_STRING_VALUE"))
            && Member(inner, [Text("TEST_STRING_VALUE")], "test_string").None?
  {
    ColaProperties.NewSingleField(Field("TEST_STRING_ENV_KEY", "definitely_new_value", StringTy),
                                  env["TEST_STRING_ENV_KEY" := "TEST_STRING_VALUE"], Parse);
  }

  /** it_fails_on_missing_value: `default` panics when the variable is unset. */
  lemma FailsOnMissingValue(env: Env)
    requires "DEFINITELY_DOES_NOT_EXIST" !in env
    ensures Default(MissingSchema, env, Parse) == Panic(PanicMessage(ConfigMissing("DEFINITELY_DOES_NOT_EXIST")))
  {
    MissingDataReturnsAproposResult(env);
  }

  /** it_allows_calling_new_directly. */
  lemma AllowsCallingNewDirectly(env: Env)
    ensures New(FlagSchema, env["TEST_TRUE_ENV_KEY" := "true"], Parse) == Ok([Flag(true)])
  {
    ColaProperties.NewSingleField(FlagSchema[0], env["TEST_TRUE_ENV_KEY" := "true"], Parse);
  }

  /** missing_data_returns_apropos_result: the error names the missing key. */
  lemma MissingDataReturnsAproposResult(env: Env)
    requires "DEFINITELY_DOES_NOT_EXIST" !in env
    ensures New(MissingSchema, env, Parse) == Err(ConfigMissing("DEFINITELY_DOES_NOT_EXIST"))
  {
    ColaProperties.NewSingleField(MissingSchema[0], env, Parse);
  }

  /** invalid_data_returns_apropos_result: "potato" is not a bool, and the
      error carries the value, not the key. */
  lemma InvalidDataReturnsAproposResult(env: Env)
    ensures New(FlagSchema, env["TEST_TRUE_ENV_KEY" := "potato"], Parse) == Err(InvalidData("potato"))
  {
    ColaProperties.NewSingleField(FlagSchema[0], env["TEST_TRUE_ENV_KEY" := "potato"], Parse);
  }

  /** One key declared for two members of different types: each member gets
      its own parse of the same raw text, and one member failing is reported
      even though the other loaded. */
  lemma SharedKeyFields(env: Env)
    ensures var both := [Field("TEST_TRUE_ENV_KEY", "as_text", StringTy), Field("TEST_TRUE_ENV_KEY", "as_flag", BoolTy)];
            && New(both, env["TEST_TRUE_ENV_KEY" := "true"], Parse) == Ok([Text("true"), Flag(true)])
            && New(both, env["TEST_TRUE_ENV_KEY" := "potato"], Parse) == Err(InvalidData("potato"))
  {
    var text, flag := Field("TEST_TRUE_ENV_KEY", "as_text", StringTy), Field("TEST_TRUE_ENV_KEY", "as_flag", BoolTy);
    assert [text, flag] == [text] + [flag];
    var good, bad := env["TEST_TRUE_ENV_KEY" := "true"], env["TEST_TRUE_ENV_KEY" := "potato"];
    ColaProperties.NewSingleField(flag, good, Parse);
    ColaProperties.NewCons(text, [flag], good, Parse);
    assert [Text("true")] + [Flag(true)] == [Text("true"), Flag(true)];
    ColaProperties.NewSingleField(flag, bad, Parse);
    ColaProperties.NewCons(text, [flag], bad, Parse);
  }

  /** Two calls with the environment changed in between: each sees the value
      set at its own call. */
  lemma NoCachingBetweenCalls(env: Env)
    ensures var before := env["TEST_TRUE_ENV_KEY" := "true"];
            var after := before["TEST_TRUE_ENV_KEY" := "potato"];
            && New(FlagSchema, before, Parse) == Ok([Flag(true)])
            && New(FlagSchema, after, Parse) == Err(InvalidData("potato"))
  {
    var before := env["TEST_TRUE_ENV_KEY" := "true"];
    AllowsCallingNewDirectly(env);
    InvalidDataReturnsAproposResult(before);
  }

  /** Every member the `String`/`bool` parser loads has its field's declared type. */
  lemma ParsedRecordIsWellTyped(schema: seq<Field<Ty>>, env: Env)
    requires New(schema, env, Parse).Ok?
    ensures forall i :: 0 <= i < |schema| ==> TypeOf(New(schema, env, Parse).value[i]) == schema[i].ty
  {
    ColaProperties.LoadedRecordIsWellTyped(schema, env, Parse, TypeOf);
  }
}
