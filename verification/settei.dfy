/** The configuration-property engine: the read-only `Configuration` mapping
    and the `config_property` descriptor, its construction from keyword
    options and its resolution against a configuration. */
module Settei {
  import opened Values
  import opened Dotted

  // ---------------------------------------------------------------------
  // Configuration: a read-only mapping of string keys
  // ---------------------------------------------------------------------

  /** An application configuration, backed by a merged dictionary. */
  datatype Configuration = Configuration(config: map<string, Value>)

  /** `Configuration(config, **kwargs)`: the merged `dict(config, **kwargs)`,
      keyword arguments winning over the mapping on a shared key. */
  function NewConfiguration(config: map<string, Value>, kwargs: map<string, Value>): (c: Configuration)
    ensures c.config.Keys == config.Keys + kwargs.Keys
    ensures forall k :: k in kwargs ==> c.config[k] == kwargs[k]
    ensures forall k :: k in config && k !in kwargs ==> c.config[k] == config[k]
  {
    Configuration(config + kwargs)
  }

  /** `c[key]`: only a string key present in the merged dictionary is found;
      any other key, of any type, raises `KeyError` naming that key. */
  function GetItem(c: Configuration, key: Value): (r: Result<Value>)
    ensures r.Ok? <==> key.Str? && key.s in c.config
    ensures r.Ok? ==> r.value == c.config[key.s]
    ensures r.Err? ==> r.error == KeyError(key)
  {
    if key.Str? && key.s in c.config then Ok(c.config[key.s]) else Err(KeyError(key))
  }

  /** `len(c)`: the number of keys the configuration yields. */
  function Len(c: Configuration): (n: nat)
    ensures n == |Iter(c)|
  {
    assert |c.config.Keys| == |c.config|;
    |c.config|
  }

  /** The keys `iter(c)` yields (as a set: iteration order is not modelled):
      exactly the keys `c[key]` finds. */
  function Iter(c: Configuration): (ks: set<string>)
    ensures forall k :: k in ks <==> GetItem(c, Str(k)).Ok?
  {
    c.config.Keys
  }

  /** `len`, `iter` and `[]` describe the same mapping: as many keys are
      iterated as the length says, each of them is found, and every key that
      is found is one of them. */
  lemma MappingAgrees(c: Configuration)
    ensures |Iter(c)| == Len(c)
    ensures forall k :: k in Iter(c) ==> GetItem(c, Str(k)) == Ok(c.config[k])
    ensures forall key :: GetItem(c, key).Ok? ==> key.Str? && key.s in Iter(c)
  {
    assert |c.config.Keys| == |c.config|;
  }

  // ---------------------------------------------------------------------
  // Looking a dotted path up
  // ---------------------------------------------------------------------

  /** The configuration seen as the table the lookup starts from. */
  function Root(c: Configuration): Value {
    Table(c.config)
  }

  /** `value[key]`: a table yields its entry or raises `KeyError`; any other
      value is not subscriptable by a string and raises `TypeError`. */
  function Subscript(v: Value, key: string): (r: Result<Value>)
    ensures r.Ok? <==> v.Table? && key in v.entries
    ensures r.Ok? ==> r.value == v.entries[key]
    ensures r.Err? && v.Table? ==> r.error == KeyError(Str(key))
    ensures !v.Table? ==> r.error == TypeError(NotSubscriptable(key))
  {
    match v
    case Table(m) => if key in m then Ok(m[key]) else Err(KeyError(Str(key)))
    case _ => Err(TypeError(NotSubscriptable(key)))
  }

  /** The first lookup step on a configuration is its `__getitem__`. */
  lemma GetItemIsSubscript(c: Configuration, k: string)
    ensures GetItem(c, Str(k)) == Subscript(Root(c), k)
  {
  }

  /** The loop `for key in path: value = value[key]`, stopping at the first
      exception; whatever is raised names one of the path's segments. */
  function Walk(v: Value, path: seq<string>): (r: Result<Value>)
    ensures r.Err? ==>
              || (r.error.KeyError? && r.error.key.Str? && r.error.key.s in path)
              || (r.error.TypeError? && r.error.reason.NotSubscriptable? && r.error.reason.key in path)
    decreases |path|
  {
    if |path| == 0 then Ok(v)
    else
      match Subscript(v, path[0])
      case Err(e) => Err(e)
      case Ok(child) =>
        var r := Walk(child, path[1..]);
        assert r.Err? && r.error.KeyError? && r.error.key.Str? ==> r.error.key.s in path by {
          if r.Err? && r.error.KeyError? && r.error.key.Str? {
            var i :| 0 <= i < |path[1..]| && path[1..][i] == r.error.key.s;
            assert path[i + 1] == r.error.key.s;
          }
        }
        assert r.Err? && r.error.TypeError? && r.error.reason.NotSubscriptable? ==> r.error.reason.key in path by {
          if r.Err? && r.error.TypeError? && r.error.reason.NotSubscriptable? {
            var i :| 0 <= i < |path[1..]| && path[1..][i] == r.error.reason.key;
            assert path[i + 1] == r.error.reason.key;
          }
        }
        r
  }

  /** Walking a concatenated path is walking the first part, then the second
      from wherever the first part led. */
  lemma {:induction false} WalkAppend(v: Value, a: seq<string>, b: seq<string>)
    ensures Walk(v, a + b) == (match Walk(v, a) case Ok(u) => Walk(u, b) case Err(e) => Err(e))
    decreases |a|
  {
    if |a| != 0 {
      assert (a + b)[0] == a[0];
      assert (a + b)[1..] == a[1..] + b;
      match Subscript(v, a[0])
      case Err(e) =>
        assert Walk(v, a + b) == Err(e);
      case Ok(child) =>
        WalkAppend(child, a[1..], b);
        assert Walk(v, a + b) == Walk(child, a[1..] + b);
    } else {
      assert a + b == b;
    }
  }

  /** Segment `i` of `path` is missing: the walk reaches a table at depth `i`
      that has no entry for the `i`-th segment. */
  ghost predicate MissingAt(v: Value, path: seq<string>, i: nat) {
    && i < |path|
    && Walk(v, path[..i]).Ok?
    && Walk(v, path[..i]).value.Table?
    && path[i] !in Walk(v, path[..i]).value.entries
  }

  /** A segment missing at any depth makes the lookup raise `KeyError`
      naming that segment. */
  lemma MissingRaisesKeyError(v: Value, path: seq<string>, i: nat)
    requires MissingAt(v, path, i)
    ensures Walk(v, path) == Err(KeyError(Str(path[i])))
  {
    WalkAppend(v, path[..i], path[i..]);
    assert path[..i] + path[i..] == path;
    assert path[i..][0] == path[i];
  }

  /** Conversely, the lookup raises `KeyError` only because some segment is
      missing at some depth, and the error names that segment. */
  lemma {:induction false} KeyErrorMeansMissing(v: Value, path: seq<string>)
    requires Walk(v, path).Err? && Walk(v, path).error.KeyError?
    ensures exists i: nat :: MissingAt(v, path, i) && Walk(v, path).error == KeyError(Str(path[i]))
    decreases |path|
  {
    assert path[..0] == [];
    match Subscript(v, path[0])
    case Err(e) =>
      assert MissingAt(v, path, 0);
    case Ok(child) =>
      KeyErrorMeansMissing(child, path[1..]);
      var j: nat :| MissingAt(child, path[1..], j) && Walk(child, path[1..]).error == KeyError(Str(path[1..][j]));
      assert path[..j + 1] == [path[0]] + path[1..][..j];
      assert Walk(v, path[..j + 1]) == Walk(child, path[1..][..j]);
      assert MissingAt(v, path, j + 1);
  }

  // ---------------------------------------------------------------------
  // config_property
  // ---------------------------------------------------------------------

  /** A warning of category `ConfigWarning`: the property `key` was missing
      and the fallback `used` was returned instead. */
  datatype ConfigWarning = ConfigWarning(key: string, used: Value)

  /** What a resolution produces: the returned value or the raised exception,
      and the warnings emitted on the way, in order. */
  datatype Resolution = Resolution(result: Result<Value>, warnings: seq<ConfigWarning>)

  /** A `default_func`: called with the configuration (or with `None`), it
      returns a value or raises, possibly warning on the way. */
  type DefaultFunc = Option<Configuration> -> Resolution

  /** The keyword options given to `config_property`; `None` means the
      keyword was not passed at all (unlike `Some(NoneValue)`, `default=None`). */
  datatype Options = Options(default: Option<Value>, defaultFunc: Option<DefaultFunc>, defaultWarning: Option<bool>)

  /** A declared `config_property`. `defaultValue` is the source's
      `default_value` flag: true when the default came from a `default_func`. */
  datatype Descriptor = Descriptor(
    key: string,
    cls: ClassSpec,
    docstring: Option<string>,
    defaultSet: bool,
    defaultValue: bool,
    defaultFunc: Option<DefaultFunc>,
    defaultWarning: bool)

  /** What construction guarantees of every descriptor it returns. */
  predicate WellFormed(p: Descriptor) {
    && (p.defaultSet <==> p.defaultFunc.Some?)
    && (!p.defaultSet ==> !p.defaultValue && !p.defaultWarning)
  }

  /** The constant function `lambda _: default`. */
  function Constant(d: Value): DefaultFunc {
    _ => Resolution(Ok(d), [])
  }

  /** `config_property(key, cls, docstring, **options)`. */
  function NewProperty(key: string, cls: ClassSpec, docstring: Option<string>, opts: Options): (r: Result<Descriptor>)
    // the two rejected combinations, and nothing else
    ensures opts.defaultFunc.Some? && opts.default.Some? ==> r == Err(TypeError(ExclusiveDefaults))
    ensures opts.defaultFunc.None? && opts.default.None? && opts.defaultWarning.Some? ==> r == Err(TypeError(WarningWithoutDefault))
    ensures r.Err? ==>
              || (opts.defaultFunc.Some? && opts.default.Some?)
              || (opts.defaultFunc.None? && opts.default.None? && opts.defaultWarning.Some?)
    ensures r.Ok? ==> WellFormed(r.value) && r.value.key == key && r.value.cls == cls && r.value.docstring == docstring
    // which default policy the descriptor carries
    ensures r.Ok? ==> (r.value.defaultSet <==> opts.default.Some? || opts.defaultFunc.Some?)
    ensures r.Ok? ==> (r.value.defaultValue <==> opts.defaultFunc.Some?)
    ensures r.Ok? ==> (r.value.defaultWarning <==> opts.defaultWarning == Some(true))
    ensures r.Ok? && opts.defaultFunc.Some? ==> r.value.defaultFunc == opts.defaultFunc
    // a literal default is wrapped in a function returning it whatever its argument
    ensures r.Ok? && opts.default.Some? ==>
              r.value.defaultFunc.Some? && forall o :: r.value.defaultFunc.value(o) == Resolution(Ok(opts.default.value), [])
  {
    var warn := opts.defaultWarning == Some(true);
    if opts.defaultFunc.Some? then
      if opts.default.Some? then Err(TypeError(ExclusiveDefaults))
      else Ok(Descriptor(key, cls, docstring, true, true, opts.defaultFunc, warn))
    else if opts.default.Some? then
      Ok(Descriptor(key, cls, docstring, true, false, Some(Constant(opts.default.value)), warn))
    else if opts.defaultWarning.Some? then
      Err(TypeError(WarningWithoutDefault))
    else
      Ok(Descriptor(key, cls, docstring, false, false, None, false))
  }

  /** The fallback taken when a segment is missing: call the default function
      with the configuration, return its outcome without any type check, and
      warn once about the value used if the property asks for it. */
  function Fallback(p: Descriptor, owner: Configuration): (r: Resolution)
    // the default function sees the configuration; its outcome and its own
    // warnings pass through, followed by ours only after a normal return
    ensures p.defaultFunc.Some? ==>
              var d := p.defaultFunc.value(Some(owner));
              && r.result == d.result
              && r.warnings == d.warnings + (if p.defaultWarning && d.result.Ok? then [ConfigWarning(p.key, d.result.value)] else [])
    // a default function that is `None` cannot be called
    ensures p.defaultFunc.None? ==> r == Resolution(Err(TypeError(NotCallable)), [])
  {
    match p.defaultFunc
    case None => Resolution(Err(TypeError(NotCallable)), [])
    case Some(f) =>
      var d := f(Some(owner));
      if d.result.Ok? && p.defaultWarning
      then Resolution(d.result, d.warnings + [ConfigWarning(p.key, d.result.value)])
      else d
  }

  /** `p.__get__(owner)`: the value of the property in the configuration. */
  function Resolve(p: Descriptor, owner: Configuration): (r: Resolution)
    // a found value is returned unchanged exactly when it is an instance of
    // the declared class, otherwise TypeError; found values never warn
    ensures var w := Walk(Root(owner), Split(p.key));
            w.Ok? ==> && r.warnings == []
                      && (r.result.Ok? <==> IsInstance(w.value, p.cls))
                      && (r.result.Ok? ==> r.result.value == w.value)
                      && (r.result.Err? ==> r.result.error == TypeError(NotInstance(p.key, w.value)))
    // without a default a missing key propagates, silently
    ensures var w := Walk(Root(owner), Split(p.key));
            w.Err? && w.error.KeyError? && !p.defaultSet ==> r == Resolution(w, [])
    // only a KeyError is caught: other errors of the lookup propagate, silently
    ensures var w := Walk(Root(owner), Split(p.key));
            w.Err? && !w.error.KeyError? ==> r == Resolution(w, [])
    // a required property yields only instances of its class
    ensures !p.defaultSet && r.result.Ok? ==> IsInstance(r.result.value, p.cls)
  {
    var w := Walk(Root(owner), Split(p.key));
    match w
    case Ok(v) =>
      if IsInstance(v, p.cls) then Resolution(Ok(v), [])
      else Resolution(Err(TypeError(NotInstance(p.key, v))), [])
    case Err(e) =>
      if e.KeyError? && p.defaultSet then Fallback(p, owner)
      else Resolution(w, [])
  }

  /** The property's dotted path is missing from the configuration at some depth. */
  ghost predicate Missing(owner: Configuration, key: string) {
    exists i: nat :: MissingAt(Root(owner), Split(key), i)
  }

  /** A missing segment at any depth, for a property without a default, raises
      `KeyError` naming that segment and never warns. */
  lemma RequiredMissingRaises(key: string, cls: ClassSpec, docstring: Option<string>, owner: Configuration, i: nat)
    requires MissingAt(Root(owner), Split(key), i)
    ensures NewProperty(key, cls, docstring, Options(None, None, None)).Ok?
    ensures Resolve(NewProperty(key, cls, docstring, Options(None, None, None)).value, owner)
            == Resolution(Err(KeyError(Str(Split(key)[i]))), [])
  {
    MissingRaisesKeyError(Root(owner), Split(key), i);
  }

  /** With a literal default, a missing path yields that literal unchecked
      against the declared class, with exactly one warning when
      `default_warning` is set and none otherwise. */
  lemma LiteralDefaultWhenMissing(key: string, cls: ClassSpec, docstring: Option<string>, d: Value,
                                  warn: Option<bool>, owner: Configuration)
    requires Missing(owner, key)
    ensures NewProperty(key, cls, docstring, Options(Some(d), None, warn)).Ok?
    ensures Resolve(NewProperty(key, cls, docstring, Options(Some(d), None, warn)).value, owner)
            == Resolution(Ok(d), if warn == Some(true) then [ConfigWarning(key, d)] else [])
  {
    var i: nat :| MissingAt(Root(owner), Split(key), i);
    MissingRaisesKeyError(Root(owner), Split(key), i);
  }

  /** With a `default_func`, a missing path yields what the function makes of
      the configuration, unchecked, followed by one warning of ours when
      `default_warning` is set and the function returned normally. */
  lemma ComputedDefaultWhenMissing(key: string, cls: ClassSpec, docstring: Option<string>, f: DefaultFunc,
                                   warn: Option<bool>, owner: Configuration)
    requires Missing(owner, key)
    ensures NewProperty(key, cls, docstring, Options(None, Some(f), warn)).Ok?
    ensures var r := Resolve(NewProperty(key, cls, docstring, Options(None, Some(f), warn)).value, owner);
            && r.result == f(Some(owner)).result
            && r.warnings == f(Some(owner)).warnings
                             + (if warn == Some(true) && r.result.Ok? then [ConfigWarning(key, r.result.value)] else [])
  {
    var i: nat :| MissingAt(Root(owner), Split(key), i);
    MissingRaisesKeyError(Root(owner), Split(key), i);
  }

  /** A value found at the full path is returned as is, whatever the default
      policy, as soon as it is an instance of the declared class. */
  lemma FoundInstanceReturned(key: string, cls: ClassSpec, docstring: Option<string>, opts: Options,
                              owner: Configuration, v: Value)
    requires NewProperty(key, cls, docstring, opts).Ok?
    requires Walk(Root(owner), Split(key)) == Ok(v) && IsInstance(v, cls)
    ensures Resolve(NewProperty(key, cls, docstring, opts).value, owner) == Resolution(Ok(v), [])
  {
  }

  /** The warning count of a resolution of a constructed property whose
      default function is a literal: one exactly when the path is missing
      and `default_warning` is set. */
  lemma {:induction false} OneWarningExactlyOnFallback(key: string, cls: ClassSpec, docstring: Option<string>,
                                                       d: Option<Value>, warn: Option<bool>, owner: Configuration)
    requires NewProperty(key, cls, docstring, Options(d, None, warn)).Ok?
    ensures |Resolve(NewProperty(key, cls, docstring, Options(d, None, warn)).value, owner).warnings|
            == (if Missing(owner, key) && d.Some? && warn == Some(true) then 1 else 0)
  {
    var w := Walk(Root(owner), Split(key));
    if w.Err? && w.error.KeyError? {
      KeyErrorMeansMissing(Root(owner), Split(key));
    } else if Missing(owner, key) {
      var i: nat :| MissingAt(Root(owner), Split(key), i);
      MissingRaisesKeyError(Root(owner), Split(key), i);
    }
  }
}
