/** The behaviour the repository's tests pin down, stated on the model:
    the properties of the test configuration class resolved against
    complete, empty and half-empty configurations, and the builder fed the
    answers the tests feed it. */
module Scenarios {
  import opened Values
  import opened Dotted
  import opened Settei
  import opened Cli

  const Depth1Required := NewProperty("key", Plain(IntType), None, Options(None, None, None))
  const Depth1Optional := NewProperty("key", Plain(IntType), None, Options(Some(Str("")), None, None))
  const Depth1Warn := NewProperty("key", Plain(IntType), None, Options(Some(Str("")), None, Some(true)))
  const Depth1DefaultFunc := NewProperty("key", Plain(IntType), None, Options(None, Some(OptionalOfSelf), None))
  const Depth1DefaultFuncWarn := NewProperty("key", Plain(IntType), None, Options(None, Some(OptionalOfSelf), Some(true)))
  const Depth2Required := NewProperty("section.key", Plain(StrType), None, Options(None, None, None))
  const Depth2Optional := NewProperty("section.key", Plain(StrType), None, Options(Some(NoneValue), None, None))
  const Depth2Warn := NewProperty("section.key", Plain(StrType), None, Options(Some(NoneValue), None, Some(true)))
  const UnionProperty := NewProperty("union", Union([IntType, StrType]), None, Options(None, None, None))

  /** `lambda self: self.depth1_optional`; `None` has no such attribute. */
  function OptionalOfSelf(o: Option<Configuration>): Resolution {
    match o
    case None => Resolution(Err(AttributeError("depth1_optional")), [])
    case Some(c) =>
      match Depth1Optional
      case Ok(p) => Resolve(p, c)
      case Err(e) => Resolution(Err(e), [])
  }

  lemma SplitSectionKey()
    ensures Split("section.key") == ["section", "key"]
  {
    SplitTwo("section", "key");
    assert "section" + "." + "key" == "section.key";
  }

  /** The test configuration with every key present. */
  function Complete(u: Value): Configuration {
    NewConfiguration(map[], map["key" := Int(123), "section" := Table(map["key" := Str("val")]), "union" := u])
  }

  /** A complete configuration: the top-level properties find `123`,
      unchanged and without a warning, whatever their default policy. */
  lemma PresentAtTopLevel(u: Value)
    ensures Resolve(Depth1Required.value, Complete(u)) == Resolution(Ok(Int(123)), [])
    ensures Resolve(Depth1Optional.value, Complete(u)) == Resolution(Ok(Int(123)), [])
    ensures Resolve(Depth1Warn.value, Complete(u)) == Resolution(Ok(Int(123)), [])
    ensures Resolve(Depth1DefaultFunc.value, Complete(u)) == Resolution(Ok(Int(123)), [])
    ensures Resolve(Depth1DefaultFuncWarn.value, Complete(u)) == Resolution(Ok(Int(123)), [])
  {
    SplitDotFree("key");
    assert Walk(Root(Complete(u)), ["key"]) == Ok(Int(123));
  }

  /** The nested path `section.key` of the complete configuration. */
  lemma WalkSectionKey(u: Value)
    ensures Walk(Root(Complete(u)), Split("section.key")) == Ok(Str("val"))
  {
    SplitSectionKey();
    var path := ["section", "key"];
    assert Subscript(Root(Complete(u)), "section") == Ok(Table(map["key" := Str("val")]));
    assert path[1..] == ["key"];
    assert Walk(Table(map["key" := Str("val")]), ["key"]) == Ok(Str("val"));
  }

  /** A complete configuration: the nested properties find `"val"`. */
  lemma PresentAtSecondLevel(u: Value)
    ensures Resolve(Depth2Required.value, Complete(u)) == Resolution(Ok(Str("val")), [])
    ensures Resolve(Depth2Optional.value, Complete(u)) == Resolution(Ok(Str("val")), [])
    ensures Resolve(Depth2Warn.value, Complete(u)) == Resolution(Ok(Str("val")), [])
  {
    WalkSectionKey(u);
    FoundInstanceReturned("section.key", Plain(StrType), None, Options(None, None, None), Complete(u), Str("val"));
    FoundInstanceReturned("section.key", Plain(StrType), None, Options(Some(NoneValue), None, None), Complete(u), Str("val"));
    FoundInstanceReturned("section.key", Plain(StrType), None, Options(Some(NoneValue), None, Some(true)), Complete(u), Str("val"));
  }

  /** The union property accepts an int and a str alike. */
  lemma UnionAcceptsEither(u: Value)
    requires u == Int(123) || u == Str("string")
    ensures Resolve(UnionProperty.value, Complete(u)) == Resolution(Ok(u), [])
  {
    SplitDotFree("union");
    assert Walk(Root(Complete(u)), ["union"]) == Ok(u);
    assert IsInstance(u, Union([IntType, StrType])) by {
      if u.Int? { assert InstanceOf(u, [IntType, StrType][0]); } else { assert InstanceOf(u, [IntType, StrType][1]); }
    }
  }

  /** An empty configuration: required properties raise `KeyError`; the
      literal defaults are returned as declared (an empty string for an int
      property), with one warning exactly where `default_warning` is set. */
  lemma AbsentAtTopLevel()
    ensures Resolve(Depth1Required.value, NewConfiguration(map[], map[])) == Resolution(Err(KeyError(Str("key"))), [])
    ensures Resolve(Depth1Optional.value, NewConfiguration(map[], map[])) == Resolution(Ok(Str("")), [])
    ensures Resolve(Depth1Warn.value, NewConfiguration(map[], map[])) == Resolution(Ok(Str("")), [ConfigWarning("key", Str(""))])
    ensures Resolve(UnionProperty.value, NewConfiguration(map[], map[])) == Resolution(Err(KeyError(Str("union"))), [])
  {
    SplitDotFree("key");
    SplitDotFree("union");
  }

  /** An empty configuration: a `default_func` reading another property
      returns that property's fallback, warning once only when asked to. */
  lemma AbsentWithDefaultFunc()
    ensures Resolve(Depth1DefaultFunc.value, NewConfiguration(map[], map[])) == Resolution(Ok(Str("")), [])
    ensures Resolve(Depth1DefaultFuncWarn.value, NewConfiguration(map[], map[]))
            == Resolution(Ok(Str("")), [ConfigWarning("key", Str(""))])
  {
    SplitDotFree("key");
    assert OptionalOfSelf(Some(NewConfiguration(map[], map[]))) == Resolution(Ok(Str("")), []);
  }

  /** An empty configuration: the nested properties miss their first segment. */
  lemma AbsentAtSecondLevel()
    ensures Resolve(Depth2Required.value, NewConfiguration(map[], map[])) == Resolution(Err(KeyError(Str("section"))), [])
    ensures Resolve(Depth2Optional.value, NewConfiguration(map[], map[])) == Resolution(Ok(NoneValue), [])
    ensures Resolve(Depth2Warn.value, NewConfiguration(map[], map[]))
            == Resolution(Ok(NoneValue), [ConfigWarning("section.key", NoneValue)])
  {
    var c := NewConfiguration(map[], map[]);
    SplitSectionKey();
    var path := Split("section.key");
    assert path[..0] == [];
    assert MissingAt(Root(c), path, 0);
    RequiredMissingRaises("section.key", Plain(StrType), None, c, 0);
    LiteralDefaultWhenMissing("section.key", Plain(StrType), None, NoneValue, None, c);
    LiteralDefaultWhenMissing("section.key", Plain(StrType), None, NoneValue, Some(true), c);
  }

  /** A configuration whose section is present but empty: the second
      segment is missing, with the same outcomes as a missing section. */
  lemma SecondDepthAbsent()
    ensures var c := NewConfiguration(map[], map["section" := Table(map[])]);
            && Resolve(Depth2Required.value, c) == Resolution(Err(KeyError(Str("key"))), [])
            && Resolve(Depth2Optional.value, c) == Resolution(Ok(NoneValue), [])
            && Resolve(Depth2Warn.value, c) == Resolution(Ok(NoneValue), [ConfigWarning("section.key", NoneValue)])
  {
    var c := NewConfiguration(map[], map["section" := Table(map[])]);
    SplitSectionKey();
    var path := Split("section.key");
    assert path[..1] == ["section"];
    assert Walk(Root(c), ["section"]) == Ok(Table(map[]));
    assert MissingAt(Root(c), path, 1);
    RequiredMissingRaises("section.key", Plain(StrType), None, c, 1);
    LiteralDefaultWhenMissing("section.key", Plain(StrType), None, NoneValue, None, c);
    LiteralDefaultWhenMissing("section.key", Plain(StrType), None, NoneValue, Some(true), c);
  }

  const DatabaseUrl := NewProperty("database.url", Plain(StrType), None,
                                   Options(Some(Str("sqlite:///test_app.db")), None, Some(true)))

  /** A selection of the attributes of the test application class, in `dir()` order. */
  function AppAttributes(): seq<(string, Attribute)> {
    [("__init__", OtherAttr), ("database_url", PropertyAttr(DatabaseUrl.value)),
     ("from_file", OtherAttr), ("from_path", OtherAttr)]
  }

  /** `str(value)` on the answers the tests give. */
  function Identity(cls: ClassSpec, v: Value): Result<Value> {
    Ok(v)
  }

  /** The class's single property is enumerated under its attribute name. */
  lemma AppProperties()
    ensures |ConfigProperties(AppAttributes())| == 1
    ensures ConfigProperties(AppAttributes())[0] == ("database_url", DatabaseUrl.value)
  {
  }

  /** Writing `database.url` into `{}`. */
  lemma SetDatabaseUrl(v: Value)
    ensures SetConfig(Table(map[]), "database.url", v) == Ok(Table(map["database" := Table(map["url" := v])]))
  {
    assert "database" + "." + "url" == "database.url";
    SetConfigReusesTable(map[], "database", "url", v);
  }

  /** Writing `a.c` next to an existing `a.b` adds `c` to the same table. */
  lemma SetBeside(a: string, b: string, c: string, x: Value, v: Value)
    requires '.' !in a && '.' !in c
    ensures SetConfig(Table(map[a := Table(map[b := x])]), a + "." + c, v)
            == Ok(Table(map[a := Table(map[b := x, c := v])]))
  {
    var inner := map[b := x];
    var outer := map[a := Table(inner)];
    var grown := inner[c := v];
    assert grown == map[b := x, c := v];
    assert outer[a := Table(grown)] == map[a := Table(map[b := x, c := v])];
    SetConfigReusesTable(outer, a, c, v);
  }

  /** Writing `database.port` next to an existing `database.url`. */
  lemma SetDatabasePort(url: Value, v: Value)
    ensures SetConfig(Table(map["database" := Table(map["url" := url])]), "database.port", v)
            == Ok(Table(map["database" := Table(map["url" := url, "port" := v])]))
  {
    assert "database" + "." + "port" == "database.port";
    SetBeside("database", "url", "port", url, v);
  }

  /** The builder over the test application class, whose single property is
      answered from `inputs`. */
  lemma BuildApp(inputs: seq<string>)
    ensures InputConfigs(AppAttributes(), inputs, Identity)
            == match AskProperty(DatabaseUrl.value, inputs)
               case Err(e) => Err(e)
               case Ok(a) =>
                 match Store(Table(map[]), DatabaseUrl.value, a.value, Identity)
                 case Err(e) => Err(e)
                 case Ok(s) => Ok(Built(s, a.consumed))
  {
    AppProperties();
    var props := ConfigProperties(AppAttributes());
    assert props[..0] == [];
  }

  /** A truthy answer that converts is written at the property's key. */
  lemma StoreTruthy(settings: Value, p: Descriptor, answer: Value, convert: Convert)
    requires Truthy(answer) && convert(p.cls, answer).Ok?
    ensures Store(settings, p, answer, convert) == SetConfig(settings, p.key, convert(p.cls, answer).value)
  {
  }

  /** Answering "y" writes the literal default at `database.url`. */
  lemma BuildWithDefault()
    ensures InputConfigs(AppAttributes(), ["y"], Identity)
            == Ok(Built(Table(map["database" := Table(map["url" := Str("sqlite:///test_app.db")])]), 1))
  {
    var d := Str("sqlite:///test_app.db");
    BuildApp(["y"]);
    assert FirstSettling(["y"], 0, UseDefault, 0);
    LiteralDefaultOffered("database.url", Plain(StrType), None, d, Some(true), ["y"], 0);
    assert AskProperty(DatabaseUrl.value, ["y"]) == Ok(Answer(d, 1));
    SetDatabaseUrl(d);
    StoreTruthy(Table(map[]), DatabaseUrl.value, d, Identity);
  }

  /** Answering "N" and then a value writes that value at `database.url`. */
  lemma BuildWithCustomValue()
    ensures InputConfigs(AppAttributes(), ["N", "postgresql://local"], Identity)
            == Ok(Built(Table(map["database" := Table(map["url" := Str("postgresql://local")])]), 2))
  {
    var inputs := ["N", "postgresql://local"];
    BuildApp(inputs);
    assert Ask(inputs, 0, UseDefault) == Ok(0);
    assert Ask(inputs, 1, CustomValue) == Ok(1);
    assert AskProperty(DatabaseUrl.value, inputs) == Ok(Answer(Str("postgresql://local"), 2));
    SetDatabaseUrl(Str("postgresql://local"));
    StoreTruthy(Table(map[]), DatabaseUrl.value, Str("postgresql://local"), Identity);
  }

  /** Writing `database.url` and then `database.port` builds a single
      `database` table holding both. */
  lemma OneDatabaseTable(url: Value, port: Value)
    ensures SetConfig(Table(map[]), "database.url", url).Ok?
    ensures SetConfig(SetConfig(Table(map[]), "database.url", url).value, "database.port", port)
            == Ok(Table(map["database" := Table(map["url" := url, "port" := port])]))
  {
    SetDatabaseUrl(url);
    SetDatabasePort(url, port);
  }
}
