/** What `new` and `default` promise, for every schema, environment and parser. */
module ColaProperties {
  import opened Wrappers
  import opened Cola

  /** Field `i` is the first one, in declaration order, that fails to load. */
  ghost predicate FirstFailure<T, V>(schema: seq<Field<T>>, env: Env, parse: Parser<T, V>, i: int) {
    && 0 <= i < |schema|
    && LoadField(env, parse, schema[i]).Err?
    && forall j :: 0 <= j < i ==> LoadField(env, parse, schema[j]).Ok?
  }

  /** The two environments bind `key` alike: both leave it unset, or both set it to the same value. */
  ghost predicate SameBinding(env1: Env, env2: Env, key: string) {
    (key !in env1 && key !in env2) || (key in env1 && key in env2 && env1[key] == env2[key])
  }

  /** `new` succeeds exactly when every field loads, and then member `i` of
      the record is the value field `i` loaded. */
  lemma {:induction false} NewSucceedsIffEveryFieldLoads<T, V>(schema: seq<Field<T>>, env: Env, parse: Parser<T, V>)
    ensures New(schema, env, parse).Ok? <==> forall i :: 0 <= i < |schema| ==> LoadField(env, parse, schema[i]).Ok?
    ensures New(schema, env, parse).Ok? ==>
              forall i :: 0 <= i < |schema| ==> LoadField(env, parse, schema[i]) == Ok(New(schema, env, parse).value[i])
  {
    if schema != [] {
      var tail := schema[1..];
      NewSucceedsIffEveryFieldLoads(tail, env, parse);
      assert forall i :: 1 <= i < |schema| ==> schema[i] == tail[i - 1];
    }
  }

  /** Completeness: when every declared key is set and every value parses
      under its field's type, `new` succeeds and each member is the parse of
      its key's raw value. */
  lemma NewSucceedsWhenEveryFieldParses<T, V>(schema: seq<Field<T>>, env: Env, parse: Parser<T, V>)
    requires forall i :: 0 <= i < |schema| ==> schema[i].key in env && parse(schema[i].ty, env[schema[i].key]).Some?
    ensures New(schema, env, parse).Ok?
    ensures |New(schema, env, parse).value| == |schema|
    ensures forall i :: 0 <= i < |schema| ==>
              Some(New(schema, env, parse).value[i]) == parse(schema[i].ty, env[schema[i].key])
  {
    NewSucceedsIffEveryFieldLoads(schema, env, parse);
    var r := New(schema, env, parse);
    forall i | 0 <= i < |schema|
      ensures Some(r.value[i]) == parse(schema[i].ty, env[schema[i].key])
    {
      assert LoadField(env, parse, schema[i]) == Ok(r.value[i]);
    }
  }

  /** Short-circuit: `new` reports exactly the error of the first failing field. */
  lemma {:induction false} NewFailsAtFirstFailure<T, V>(schema: seq<Field<T>>, env: Env, parse: Parser<T, V>, i: int)
    requires FirstFailure(schema, env, parse, i)
    ensures New(schema, env, parse) == Err(LoadField(env, parse, schema[i]).error)
  {
    if i > 0 {
      assert LoadField(env, parse, schema[0]).Ok?;
      var tail := schema[1..];
      forall j | 0 <= j < i - 1
        ensures LoadField(env, parse, tail[j]).Ok?
      {
        assert tail[j] == schema[j + 1];
      }
      assert tail[i - 1] == schema[i];
      NewFailsAtFirstFailure(tail, env, parse, i - 1);
    }
  }

  /** Conversely, whenever `new` fails there is a first failing field, every
      field before it loaded, and its error is the one reported. */
  lemma {:induction false} NewErrorComesFromFirstFailure<T, V>(schema: seq<Field<T>>, env: Env, parse: Parser<T, V>)
    requires New(schema, env, parse).Err?
    ensures exists i :: FirstFailure(schema, env, parse, i)
                     && New(schema, env, parse).error == LoadField(env, parse, schema[i]).error
  {
    if LoadField(env, parse, schema[0]).Err? {
      assert FirstFailure(schema, env, parse, 0);
    } else {
      var tail := schema[1..];
      NewErrorComesFromFirstFailure(tail, env, parse);
      var k :| FirstFailure(tail, env, parse, k) && New(tail, env, parse).error == LoadField(env, parse, tail[k]).error;
      assert tail[k] == schema[k + 1];
      forall j | 0 <= j < k + 1
        ensures LoadField(env, parse, schema[j]).Ok?
      {
        if j > 0 { assert schema[j] == tail[j - 1]; }
      }
      assert FirstFailure(schema, env, parse, k + 1);
    }
  }

  /** Missing-key detection: an unset key, with every earlier field loading,
      makes `new` fail with `ConfigMissing` carrying exactly that key. */
  lemma NewReportsMissingKey<T, V>(schema: seq<Field<T>>, env: Env, parse: Parser<T, V>, i: int)
    requires 0 <= i < |schema| && schema[i].key !in env
    requires forall j :: 0 <= j < i ==> LoadField(env, parse, schema[j]).Ok?
    ensures New(schema, env, parse) == Err(ConfigMissing(schema[i].key))
  {
    NewFailsAtFirstFailure(schema, env, parse, i);
  }

  /** Invalid-data detection: a set key whose value does not parse, with every
      earlier field loading, makes `new` fail with `InvalidData` carrying the
      raw value. */
  lemma NewReportsInvalidValue<T, V>(schema: seq<Field<T>>, env: Env, parse: Parser<T, V>, i: int)
    requires 0 <= i < |schema| && schema[i].key in env && parse(schema[i].ty, env[schema[i].key]).None?
    requires forall j :: 0 <= j < i ==> LoadField(env, parse, schema[j]).Ok?
    ensures New(schema, env, parse) == Err(InvalidData(env[schema[i].key]))
  {
    NewFailsAtFirstFailure(schema, env, parse, i);
  }

  /** The payload of every error `new` returns: an unset declared key, or the
      raw value of a set declared key that does not parse under its field's type. */
  lemma NewErrorPayload<T, V>(schema: seq<Field<T>>, env: Env, parse: Parser<T, V>)
    requires New(schema, env, parse).Err?
    ensures New(schema, env, parse).error.ConfigMissing? ==>
              var key := New(schema, env, parse).error.key;
              exists i :: 0 <= i < |schema| && schema[i].key == key && key !in env
    ensures New(schema, env, parse).error.InvalidData? ==>
              var raw := New(schema, env, parse).error.raw;
              exists i :: 0 <= i < |schema| && schema[i].key in env && env[schema[i].key] == raw
                       && parse(schema[i].ty, raw).None?
  {
    NewErrorComesFromFirstFailure(schema, env, parse);
  }

  /** Fields after the first failing one, valid or not, do not change the result. */
  lemma NewIgnoresFieldsAfterFailure<T, V>(schema: seq<Field<T>>, env: Env, parse: Parser<T, V>, i: int, rest: seq<Field<T>>)
    requires FirstFailure(schema, env, parse, i)
    ensures New(schema[..i + 1] + rest, env, parse) == New(schema, env, parse)
  {
    var other := schema[..i + 1] + rest;
    assert forall j :: 0 <= j <= i ==> other[j] == schema[j];
    assert FirstFailure(other, env, parse, i);
    NewFailsAtFirstFailure(other, env, parse, i);
    NewFailsAtFirstFailure(schema, env, parse, i);
  }

  /** `new` on a non-empty schema: the head field first, then the rest. */
  lemma NewCons<T, V>(f: Field<T>, rest: seq<Field<T>>, env: Env, parse: Parser<T, V>)
    ensures LoadField(env, parse, f).Err? ==> New([f] + rest, env, parse) == Err(LoadField(env, parse, f).error)
    ensures LoadField(env, parse, f).Ok? && New(rest, env, parse).Err? ==>
              New([f] + rest, env, parse) == Err(New(rest, env, parse).error)
    ensures LoadField(env, parse, f).Ok? && New(rest, env, parse).Ok? ==>
              New([f] + rest, env, parse) == Ok([LoadField(env, parse, f).value] + New(rest, env, parse).value)
  {
    assert ([f] + rest)[0] == f;
    assert ([f] + rest)[1..] == rest;
  }

  /** `new` on a schema of one field: that field's result, as a one-member record. */
  lemma NewSingleField<T, V>(f: Field<T>, env: Env, parse: Parser<T, V>)
    ensures New([f], env, parse) ==
              if LoadField(env, parse, f).Ok? then Ok([LoadField(env, parse, f).value])
              else Err(LoadField(env, parse, f).error)
  {
    NewCons(f, [], env, parse);
    assert [f] + [] == [f];
    assert New([], env, parse) == Ok([]);
    if LoadField(env, parse, f).Ok? {
      assert [LoadField(env, parse, f).value] + [] == [LoadField(env, parse, f).value];
    }
  }

  /** Loading two schemas one after the other is loading their concatenation. */
  lemma {:induction false} NewAppend<T, V>(s1: seq<Field<T>>, s2: seq<Field<T>>, env: Env, parse: Parser<T, V>)
    ensures New(s1, env, parse).Err? ==> New(s1 + s2, env, parse) == New(s1, env, parse)
    ensures New(s1, env, parse).Ok? && New(s2, env, parse).Err? ==> New(s1 + s2, env, parse) == New(s2, env, parse)
    ensures New(s1, env, parse).Ok? && New(s2, env, parse).Ok? ==>
              New(s1 + s2, env, parse) == Ok(New(s1, env, parse).value + New(s2, env, parse).value)
  {
    if s1 == [] {
      assert s1 + s2 == s2;
      assert New(s1, env, parse) == Ok([]);
      assert New(s2, env, parse).Ok? ==> [] + New(s2, env, parse).value == New(s2, env, parse).value;
    } else {
      var f, tail := s1[0], s1[1..];
      assert s1 == [f] + tail;
      assert s1 + s2 == [f] + (tail + s2);
      NewAppend(tail, s2, env, parse);
      NewCons(f, tail, env, parse);
      NewCons(f, tail + s2, env, parse);
      if LoadField(env, parse, f).Ok? && New(tail, env, parse).Ok? && New(s2, env, parse).Ok? {
        var v, a, b := LoadField(env, parse, f).value, New(tail, env, parse).value, New(s2, env, parse).value;
        assert [v] + (a + b) == ([v] + a) + b;
      }
    }
  }

  /** Within one field, absence is decided before any parse is attempted: an
      unset key gives `ConfigMissing` whatever the parser would have done. */
  lemma MissingKeyIsReportedBeforeParsing<T, V>(env: Env, p1: Parser<T, V>, p2: Parser<T, V>, f: Field<T>)
    requires f.key !in env
    ensures LoadField(env, p1, f) == LoadField(env, p2, f) == Err(ConfigMissing(f.key))
  {
  }

  /** Fields sharing a key are looked up separately: each gets its own type's
      parse of the same raw string. */
  lemma SharedKeyFieldsParseTheSameRaw<T, V>(schema: seq<Field<T>>, env: Env, parse: Parser<T, V>, i: int, j: int)
    requires 0 <= i < |schema| && 0 <= j < |schema| && schema[i].key == schema[j].key
    requires New(schema, env, parse).Ok?
    ensures schema[i].key in env
    ensures parse(schema[i].ty, env[schema[i].key]) == Some(New(schema, env, parse).value[i])
    ensures parse(schema[j].ty, env[schema[i].key]) == Some(New(schema, env, parse).value[j])
  {
    var r := New(schema, env, parse);
    NewSucceedsIffEveryFieldLoads(schema, env, parse);
    assert LoadField(env, parse, schema[i]) == Ok(r.value[i]);
    assert LoadField(env, parse, schema[j]) == Ok(r.value[j]);
  }

  /** No field interferes with another: in a successful load, each member is
      what a schema holding that field alone would load. */
  lemma FieldLoadsAsIfAlone<T, V>(schema: seq<Field<T>>, env: Env, parse: Parser<T, V>, i: int)
    requires 0 <= i < |schema| && New(schema, env, parse).Ok?
    ensures New([schema[i]], env, parse) == Ok([New(schema, env, parse).value[i]])
  {
    var r := New(schema, env, parse);
    NewSucceedsIffEveryFieldLoads(schema, env, parse);
    assert LoadField(env, parse, schema[i]) == Ok(r.value[i]);
    assert [schema[i]][1..] == [];
    assert New([schema[i]][1..], env, parse) == Ok([]);
    assert [r.value[i]] + [] == [r.value[i]];
  }

  /** `new` reads the environment only at the declared keys: two environments
      that bind every declared key alike give the same result. */
  lemma {:induction false} NewReadsOnlyDeclaredKeys<T, V>(schema: seq<Field<T>>, env1: Env, env2: Env, parse: Parser<T, V>)
    requires forall i :: 0 <= i < |schema| ==> SameBinding(env1, env2, schema[i].key)
    ensures New(schema, env1, parse) == New(schema, env2, parse)
  {
    if schema != [] {
      assert SameBinding(env1, env2, schema[0].key);
      assert LoadField(env1, parse, schema[0]) == LoadField(env2, parse, schema[0]);
      var tail := schema[1..];
      forall i | 0 <= i < |tail|
        ensures SameBinding(env1, env2, tail[i].key)
      {
        assert tail[i] == schema[i + 1];
      }
      NewReadsOnlyDeclaredKeys(tail, env1, env2, parse);
    }
  }

  /** No caching: after a variable is set, a field reading it holds the new
      value's parse, and setting an undeclared variable changes nothing. */
  lemma NewSeesSetVariable<T, V>(schema: seq<Field<T>>, env: Env, parse: Parser<T, V>, key: string, value: string)
    ensures forall i :: 0 <= i < |schema| && schema[i].key == key && New(schema, env[key := value], parse).Ok? ==>
              parse(schema[i].ty, value) == Some(New(schema, env[key := value], parse).value[i])
    ensures (forall i :: 0 <= i < |schema| ==> schema[i].key != key) ==>
              New(schema, env[key := value], parse) == New(schema, env, parse)
  {
    var env' := env[key := value];
    NewSucceedsIffEveryFieldLoads(schema, env', parse);
    forall i | 0 <= i < |schema| && schema[i].key == key && New(schema, env', parse).Ok?
      ensures parse(schema[i].ty, value) == Some(New(schema, env', parse).value[i])
    {
      assert LoadField(env', parse, schema[i]) == Ok(New(schema, env', parse).value[i]);
    }
    if forall i :: 0 <= i < |schema| ==> schema[i].key != key {
      forall i | 0 <= i < |schema|
        ensures SameBinding(env', env, schema[i].key)
      {
      }
      NewReadsOnlyDeclaredKeys(schema, env', env, parse);
    }
  }

  /** The panic message names the error: distinct errors give distinct messages. */
  lemma PanicMessageIdentifiesError(e1: ConfigError, e2: ConfigError)
    requires PanicMessage(e1) == PanicMessage(e2)
    ensures e1 == e2
  {
    var m := PanicMessage(e1);
    match e1 {
      case ConfigMissing(a) =>
        assert m[4] == 'v';
        match e2 {
          case ConfigMissing(b) =>
            assert |a| == |b|;
            assert a == m[10..10 + |a|] == b;
          case InvalidData(_) =>
            assert false;
        }
      case InvalidData(a) =>
        assert m[4] == 'd';
        match e2 {
          case InvalidData(b) =>
            assert |a| == |b|;
            assert a == m[19..19 + |a|] == b;
          case ConfigMissing(_) =>
            assert false;
        }
    }
  }

  /** In a well-formed schema, member `name` of a loaded record is the value
      loaded for the field of that name. */
  lemma {:induction false} MemberIsDeclaredField<T, V>(schema: seq<Field<T>>, record: seq<V>, i: int)
    requires WellFormed(schema) && |record| == |schema| && 0 <= i < |schema|
    ensures Member(schema, record, schema[i].name) == Some(record[i])
  {
    if i > 0 {
      assert schema[0].name != schema[i].name;
      var tail := schema[1..];
      assert tail[i - 1] == schema[i];
      assert WellFormed(tail) by {
        forall a, b | 0 <= a < b < |tail|
          ensures tail[a].name != tail[b].name
        {
          assert tail[a] == schema[a + 1] && tail[b] == schema[b + 1];
        }
      }
      MemberIsDeclaredField(tail, record[1..], i - 1);
    }
  }

  /** A loaded record is well typed: when the parser only yields values of
      the type it was asked for, each member has its field's declared type. */
  lemma LoadedRecordIsWellTyped<T, V>(schema: seq<Field<T>>, env: Env, parse: Parser<T, V>, typeOf: V -> T)
    requires forall ty, raw :: parse(ty, raw).Some? ==> typeOf(parse(ty, raw).value) == ty
    requires New(schema, env, parse).Ok?
    ensures forall i :: 0 <= i < |schema| ==> typeOf(New(schema, env, parse).value[i]) == schema[i].ty
  {
    NewSucceedsIffEveryFieldLoads(schema, env, parse);
    var r := New(schema, env, parse);
    forall i | 0 <= i < |schema|
      ensures typeOf(r.value[i]) == schema[i].ty
    {
      assert LoadField(env, parse, schema[i]) == Ok(r.value[i]);
    }
  }
}
