# settei, modelled in Dafny

settei gives typed, declarative access to a nested settings document. A class
declares `config_property(key, cls, docstring, default=…, default_func=…,
default_warning=…)` attributes. Reading such an attribute on a
`Configuration` instance walks the dotted `key` through the nested tables and
checks the value found against `cls`. When a segment is missing, the property
either raises `KeyError` or falls back to its default, optionally with a
`ConfigWarning`. A companion command-line helper asks the user, one property
at a time, for a default or a custom value, and writes each answer at its
dotted key in a fresh nested dictionary.

The model has five modules:

- `Values` (`values.dfy`): document values (ints, bools, strings, `None`,
  tables with string keys), the Python exceptions the code raises, Python
  truthiness, and `isinstance` over a closed set of classes. `bool` counts as
  an instance of `int`, and a `typing.Union` is checked as a tuple of classes.
- `Dotted` (`dotted.dfy`): `key.split('.')` and `'.'.join(parts)`, and the
  proof that they are inverse to each other.
- `Settei` (`settei.dfy`): the `Configuration` mapping, the segment-by-segment
  lookup, `config_property.__init__` as `NewProperty`, and `__get__` as
  `Resolve`. Resolution returns the result (value or exception) together with
  the warnings emitted, in order.
- `Cli` (`cli.dfy`): `_prompt` reading a finite sequence of input lines,
  `_set_config`, `Cli.config_properties` over the class attributes in `dir()`
  order, and `Cli.input_configs`.
- `Scenarios` (`scenarios.dfy`): the repository's test cases (`tests.py`)
  stated as lemmas about the model.

Some points about what the code does:

- `__get__` does not convert a found value into `cls`, the allowed type. It
  checks `isinstance(value, cls)` and either returns the value unchanged or
  raises `TypeError`. A union is checked with `isinstance` against the tuple
  of its members.
- `default` and `default_func` are mutually exclusive: passing both raises
  `TypeError`. A literal default is wrapped in a constant function, and the
  `default_value` flag only records that the default came from a
  `default_func`.
- When the builder's user accepts the default of a property that has a
  `default_func`, the function is not called. The prompt offers `None`, and
  since `None` is falsy nothing is written (`Cli.ComputedDefaultNotStored`).

Two points about errors:

- Walking into a value that is not a table raises `TypeError`. That is not a
  `KeyError`, so it propagates and never triggers the default.
- Running out of input lines raises `EOFError`, which is what Python's
  `input()` raises at the end of its input.

## Model

| member | source | states |
|---|---|---|
| `Values.Truthy` | settei/cli.py:109 | a value is falsy exactly when it is `0`, `False`, `''`, `None` or `{}`, which is what `if config_value:` tests |
| `Values.InstanceOf` | settei.py:107 | a value is an instance of a class iff the class is in the value's class hierarchy; a `bool` is also an `int` |
| `Values.IsInstance` | settei.py:101-107 | `isinstance` against a plain class holds iff the class is in the value's hierarchy; against a union, iff some member is |
| `Dotted.Split` | settei/cli.py:47 | splitting yields at least one piece and no piece contains a dot |
| `Dotted.SplitDotFree` | settei/cli.py:47-49 | a key without a dot splits into itself alone, so `_set_config` takes its assignment branch |
| `Dotted.SplitAtFirstDot` | settei/cli.py:47-48 | the first piece of `p.t` is the dot-free prefix `p`, and the rest splits as `t` does |
| `Dotted.SplitTwo` | settei/cli.py:47-48 | `a.b` with dot-free `a` and `b` splits into exactly `[a, b]` |
| `Dotted.Join` | settei/cli.py:51 | the joined string starts with the first part, is longer than it exactly when there are more parts, and then continues with a dot |
| `Dotted.SplitJoin` | settei/cli.py:47-51 | joining dot-free pieces with dots and splitting again gives back the same pieces |
| `Dotted.JoinSplit` | settei/cli.py:47-51 | splitting a key and joining the pieces with dots gives back the key |
| `Dotted.RestRoundTrip` | settei/cli.py:48-51 | the recursive call on `'.'.join(rest)` sees exactly the remaining segments, one fewer than before |
| `Settei.NewConfiguration` | settei.py:168-170 | the configuration's keys are the union of the mapping's and the keyword arguments'; on a shared key the keyword argument wins |
| `Settei.GetItem` | settei.py:178-181 | a key is found iff it is a string present in the configuration; any other key raises `KeyError` carrying that key |
| `Settei.Len` | settei.py:172-173 | the length is the number of keys iteration yields |
| `Settei.Iter` | settei.py:175-176 | iteration yields exactly the strings that `__getitem__` finds |
| `Settei.MappingAgrees` | settei.py:172-181 | `len`, `iter` and `[]` agree: as many keys as the length, each iterated key found, and every found key iterated |
| `Settei.GetItemIsSubscript` | settei.py:84-87 | the first lookup step on a configuration is its `__getitem__` |
| `Settei.Subscript` | settei.py:87 | `value[key]` succeeds iff the value is a table holding the key, and yields its entry; a table without the key raises `KeyError(key)`, and any other value raises a not-subscriptable `TypeError` |
| `Settei.Walk` | settei.py:84-87 | any exception from the segment-by-segment lookup names one of the key's segments (`KeyError` or a not-subscriptable `TypeError`) |
| `Settei.WalkAppend` | settei.py:85-87 | looking up a concatenated path is looking up the first part, then the second from where the first led |
| `Settei.MissingRaisesKeyError` | settei.py:85-88 | if a segment is missing from the table reached at depth i, the lookup raises `KeyError` for that segment |
| `Settei.KeyErrorMeansMissing` | settei.py:85-88 | conversely, a `KeyError` from the lookup means some segment is missing at some depth, and it names that segment |
| `Settei.NewProperty` | settei.py:53-79 | `default` with `default_func` is rejected, and so is `default_warning` without any default; every other combination succeeds; a literal default becomes a function that returns it for every argument; records whether a default exists, whether it came from `default_func`, and whether to warn |
| `Settei.Fallback` | settei.py:88-99 | the default function is called with the configuration; its outcome and its own warnings pass through, and one `ConfigWarning` carrying the key and the value is appended exactly when the call returned normally and `default_warning` is set |
| `Settei.Resolve` | settei.py:81-113 | a found value is returned unchanged iff it is an instance of `cls` (otherwise `TypeError`), never with a warning; without a default a `KeyError` propagates; non-`KeyError` failures always propagate; a required property only ever returns instances of `cls` |
| `Settei.RequiredMissingRaises` | settei.py:85-100 | a property without a default, whose path is missing at any depth, raises `KeyError` for the missing segment and emits no warning |
| `Settei.LiteralDefaultWhenMissing` | settei.py:66-99 | with a literal default and a missing path, the literal is returned unchecked against `cls`, with exactly one `ConfigWarning` when `default_warning` is true and none otherwise |
| `Settei.ComputedDefaultWhenMissing` | settei.py:58-99 | with a `default_func` and a missing path, the function's own outcome and warnings are passed through, plus one `ConfigWarning` when `default_warning` is true and the function returned normally |
| `Settei.FoundInstanceReturned` | settei.py:101-113 | a value of the declared class found at the full path is returned as is, silently, whatever the default policy |
| `Settei.OneWarningExactlyOnFallback` | settei.py:88-99 | for a property without `default_func`, a resolution emits one warning iff the path is missing, a default exists and `default_warning` is set; otherwise none |
| `Cli.Ask` | settei/cli.py:28-41 | a re-asking loop returns the first line from its start that settles the question, or raises `EOFError` if no remaining line does |
| `Cli.Custom` | settei/cli.py:39-42 | the custom value is the first non-empty line from where the asking starts; if every remaining line is empty, `EOFError` |
| `Cli.Prompt` | settei/cli.py:18-42 | a prompt fails only with `EOFError`, and an answer reads at least one and at most all given lines; a required prompt asks no yes/no question: it fails iff every line is empty, and otherwise answers the first non-empty line |
| `Cli.PromptOptional` | settei/cli.py:26-42 | an optional prompt re-asks until a yes/no word and raises `EOFError` if none comes; a yes word answers the default; a no word answers the first non-empty line after it, and raises `EOFError` only if every later line is empty |
| `Cli.SetConfig` | settei/cli.py:45-53 | the write succeeds iff every intermediate table it meets is a table; on failure it raises `AttributeError` (`setdefault` on a non-table) or `TypeError` (item assignment into a non-table); on success only the first segment's top-level entry is added or replaced |
| `Cli.SetConfigSingleSegment` | settei/cli.py:52-53 | a dot-free key is a plain item assignment |
| `Cli.SetConfigReusesTable` | settei/cli.py:49-53 | for `a.b`, a missing table `a` is created and an existing one is reused with its other entries kept |
| `Cli.SetThenWalk` | settei/cli.py:45-53 | round trip: after a successful write of `v` at `k`, looking `k` up segment by segment finds `v` |
| `Cli.SetConfigFrame` | settei/cli.py:45-53 | every value found at a path that leaves the written key's path is still found there after the write |
| `Cli.WritesShareTable` | settei/cli.py:49-51 | two keys with the same first segment that later diverge, written into `{}`, end up in one shared table: one top-level key, and both values can be read back |
| `Cli.WriteIntoEmpty` | settei/cli.py:45-53 | writing into `{}` always succeeds and leaves only the key's first segment at top level |
| `Cli.WritableAfterWrite` | settei/cli.py:45-53 | a write keeps every path that diverges from it writable |
| `Cli.ConfigProperties` | settei/cli.py:77-88 | the enumeration is no longer than the attribute list, and a class without properties yields nothing |
| `Cli.ConfigPropertiesSound` | settei/cli.py:85-88 | every enumerated pair is an attribute of the class whose value is a property |
| `Cli.ConfigPropertiesComplete` | settei/cli.py:85-88 | every property attribute of the class is enumerated under its attribute name |
| `Cli.ConfigPropertiesSorted` | settei/cli.py:85-88 | attributes in `dir()` order (sorted names) give properties in sorted name order |
| `Cli.OfferedDefault` | settei/cli.py:101-103 | a property without a default, or with a `default_func`, is offered `None` |
| `Cli.AskProperty` | settei/cli.py:101-108 | an answer reads at least one and at most all remaining input lines |
| `Cli.Store` | settei/cli.py:109-110 | a falsy answer leaves the settings unchanged; a failing `cls(value)` propagates; a truthy answer that converts is stored exactly when the settings and every existing intermediate on the key's path are tables; a stored value is found again under the property's key; only the key's first segment can be added at top level |
| `Cli.InputAll` | settei/cli.py:96-111 | the builder reads no more lines than given and builds a table |
| `Cli.InputAllKeys` | settei/cli.py:96-111 | every top-level key of the built settings is the first segment of some property's key |
| `Cli.InputAllPrefixOk` | settei/cli.py:97-110 | a successful build is a successful build of all but the last property, followed by a successful prompt for the last one |
| `Cli.InputAllStep` | settei/cli.py:97-110 | the settings after the last property are the settings before it with that property's answer stored |
| `Cli.StoreFrame` | settei/cli.py:109-110 | storing an answer keeps every value found at a path that leaves the property's key |
| `Cli.StepKeeps` | settei/cli.py:97-110 | a value found before the last property, at a path that leaves its key, is still found after it |
| `Cli.InputConfigs` | settei/cli.py:90-111 | a class without properties asks nothing and builds `{}`; every top-level key of the result comes from the key of one of the class's properties |
| `Cli.LastAnswerReadBack` | settei/cli.py:104-110 | the last property's truthy answer, converted, is found at its key in the built settings |
| `Cli.AnswerReadBack` | settei/cli.py:96-111 | any property's truthy answer, converted, is found at its key in the built settings, provided the key of every property asked after it leaves its path |
| `Cli.ComputedDefaultNotStored` | settei/cli.py:101-110 | accepting the default of a `default_func` property answers `None`, and nothing is stored for it |
| `Cli.LiteralDefaultOffered` | settei/cli.py:101-108 | accepting the default of a literal-default property answers that literal |
| `Cli.RequiredTakesAnyNonEmptyLine` | settei/cli.py:104-108 | a required property asks no yes/no question: its first non-empty line, even "y", is its value |
| `Scenarios.PresentAtTopLevel` | tests.py:54-67 | `key = 123` is read as `123` with no warning by the required, literal-default and `default_func` properties, with or without warning |
| `Scenarios.PresentAtSecondLevel` | tests.py:68-74 | `section.key = "val"` is read as `"val"` with no warning by the required, optional and warning properties |
| `Scenarios.UnionAcceptsEither` | tests.py:52-75 | the `Union[int, str]` property accepts both `123` and `"string"` |
| `Scenarios.AbsentAtTopLevel` | tests.py:78-106 | on `{}`, the required and union properties raise `KeyError`; the `''` default is returned for an int property, with one warning only on the warning property |
| `Scenarios.AbsentWithDefaultFunc` | tests.py:89-95 | on `{}`, a `default_func` that reads another property returns its `''`, with one warning only when asked to |
| `Scenarios.AbsentAtSecondLevel` | tests.py:96-104 | on `{}`, `section.key` raises `KeyError('section')` when required, and returns `None` (with one warning on the warning variant) otherwise |
| `Scenarios.SecondDepthAbsent` | tests.py:109-119 | with `section = {}`, `section.key` raises `KeyError('key')` when required, and returns `None` (with one warning on the warning variant) otherwise |
| `Scenarios.AppProperties` | tests.py:143-147 | the application class enumerates exactly one property, `('database_url', database_url)` |
| `Scenarios.SetDatabaseUrl` | tests.py:150-154 | writing `database.url` into `{}` gives `{'database': {'url': v}}` |
| `Scenarios.SetDatabasePort` | settei/cli.py:49-51 | writing `database.port` next to an existing `database.url` extends that same table |
| `Scenarios.OneDatabaseTable` | settei/cli.py:49-51 | writing `database.url` and then `database.port` builds one `database` table holding both |
| `Scenarios.BuildWithDefault` | tests.py:150-154 | answering "y" builds `{'database': {'url': 'sqlite:///test_app.db'}}` from one line |
| `Scenarios.BuildWithCustomValue` | tests.py:157-166 | answering "N" and then a URL builds `{'database': {'url': <that URL>}}` from two lines |

## Left out

- Loading the document: `Configuration.from_file`, `from_path`, TOML parsing and `FileNotFoundError`. These are file I/O, and a document is given directly as nested tables.
- `Cli.main`, `argparse`, `pytoml.dumps` and writing the output file. This is console and file I/O around `input_configs`.
- `print` and `input` in `_prompt`. The printed prompts and the "Invalid option" message are output only. Input is a finite sequence of lines, and `EOFError` stands for the end of input.
- The `warnings` module. Warnings are returned as a list in emission order; `stacklevel` and the message text are not modelled.
- `@typechecked`. Arguments are well-typed by construction in the model.
- `__get__` on the class (`obj is None`), which returns the descriptor itself. This is attribute-access mechanics with no settings semantics.
- `docstring`, `__doc__`, `__repr__`, the `inspect.getdoc` fallback to `` `attr_name` `` and the formatting of error messages. They only produce display text; the docstring is kept as a field.
- Floats, lists, dates and other TOML value kinds. Only the kinds the properties and tests use are modelled.
- Non-string keys inside the initial mapping. A TOML document only has string keys; `GetItem` still models looking up a non-string key.
- `Settei.Iter`: the keys are modelled as a set, so iteration order is left out.
- `cls(value)` in `input_configs`: the conversion is a parameter of the builder, because Python class constructors are outside the model.
- `dir()` and `getattr`: the class's attributes are given as a list of name and attribute pairs in `dir()` order.
- Keyword options other than `default`, `default_func` and `default_warning`, which the source accepts and ignores.
- Warnings emitted by a default function that the builder calls with `None`. The builder only keeps the returned value or the exception.
- On failure, the partially filled settings dictionary, which the caller never sees because the exception propagates.
- `Cli.InputAll`: an answer is read back (`Cli.AnswerReadBack`) only when every later property's key leaves its path. A later key equal to it, or a dotted prefix of it, replaces the value when that later property is answered with a truthy value. A later key that extends it, answered with a truthy value, writes inside the stored value, which raises unless that value is a table. A falsy later answer writes nothing. So in general an earlier answer is not found again.
- `Cli.InputConfigs`: states where the top-level keys come from. The read-back of answers is stated on the builder it runs over the enumerated properties (`Cli.AnswerReadBack`), with the same proviso.
- `Settei.NewProperty`: `default_warning` is taken to be a `bool`, as its documented type says (settei.py:49). The source keeps whatever is passed and tests its truthiness, so `default_warning=1` warns and `default_warning=None` does not; the options hold only `True` or `False`.
- `Settei.Fallback`: `default_func` is taken to be callable, as its documented type says (settei.py:43). An explicit `default_func=None`, which the source would store and then fail to call, cannot be expressed in `Settei.NewProperty`'s options. So the not-callable branch is reached only by a descriptor built directly.
- `Cli.AskProperty`: states only how many lines are read. The answer itself is stated per kind of property by `Cli.LiteralDefaultOffered`, `Cli.ComputedDefaultNotStored` and `Cli.RequiredTakesAnyNonEmptyLine`.
