/** The configuration builder: answering prompts from a finite sequence of
    input lines, writing answers into a fresh nested table at each
    property's dotted key, and enumerating the properties of a class. */
module Cli {
  import opened Values
  import opened Dotted
  import opened Settei

  // ---------------------------------------------------------------------
  // Prompting
  // ---------------------------------------------------------------------

  /** The answers accepted as "use the default". */
  const YesOptions: set<string> := {"y", "yes", "YES"}

  /** The answers accepted as "enter a custom value". */
  const NoOptions: set<string> := {"N", "no", "NO"}

  /** The two questions the prompt asks, each re-asked until answered. */
  datatype Question = UseDefault | CustomValue

  /** Whether an input line settles a question: one of the six yes/no words
      for `UseDefault`, any non-empty line for `CustomValue`. */
  predicate Settles(q: Question, line: string) {
    match q
    case UseDefault => line in YesOptions + NoOptions
    case CustomValue => line != ""
  }

  /** Line `j` is the first line at or after `from` that settles `q`. */
  ghost predicate FirstSettling(inputs: seq<string>, from: nat, q: Question, j: nat) {
    && from <= j < |inputs|
    && Settles(q, inputs[j])
    && forall k :: from <= k < j ==> !Settles(q, inputs[k])
  }

  /** Asking `q` again and again from line `from`: the index of the line that
      settles it, or `EOFError` once the lines run out. */
  function Ask(inputs: seq<string>, from: nat, q: Question): (r: Result<nat>)
    ensures r.Ok? ==> FirstSettling(inputs, from, q, r.value)
    ensures r.Err? ==> r.error == EOFError && forall k :: from <= k < |inputs| ==> !Settles(q, inputs[k])
    decreases |inputs| - from
  {
    if from >= |inputs| then Err(EOFError)
    else if Settles(q, inputs[from]) then Ok(from)
    else Ask(inputs, from + 1, q)
  }

  /** A prompt's answer and how many input lines it read. */
  datatype Answer = Answer(value: Value, consumed: nat)

  /** `_prompt(doc, is_required, default)` reading the lines `inputs`. */
  function Prompt(isRequired: bool, default: Value, inputs: seq<string>): (r: Result<Answer>)
    ensures r.Err? ==> r.error == EOFError
    ensures r.Ok? ==> 1 <= r.value.consumed <= |inputs|
    // required: the yes/no question is never asked; the first non-empty line is the answer
    ensures isRequired ==> (r.Err? <==> forall k :: 0 <= k < |inputs| ==> inputs[k] == "")
    ensures isRequired && r.Ok? ==>
              && r.value.consumed >= 1
              && FirstSettling(inputs, 0, CustomValue, r.value.consumed - 1)
              && r.value.value == Str(inputs[r.value.consumed - 1])
  {
    if isRequired then Custom(inputs, 0)
    else
      match Ask(inputs, 0, UseDefault)
      case Err(e) => Err(e)
      case Ok(i) =>
        if inputs[i] in NoOptions then Custom(inputs, i + 1)
        else Ok(Answer(default, i + 1))
  }

  /** An optional prompt reads lines until a yes/no word: a yes word answers
      the default, a no word answers the first non-empty line after it, and
      running out of lines raises `EOFError`. */
  lemma PromptOptional(default: Value, inputs: seq<string>)
    ensures (forall k :: 0 <= k < |inputs| ==> !Settles(UseDefault, inputs[k])) ==> Prompt(false, default, inputs) == Err(EOFError)
    ensures forall i: nat :: FirstSettling(inputs, 0, UseDefault, i) ==>
              var r := Prompt(false, default, inputs);
              && (inputs[i] in YesOptions ==> r == Ok(Answer(default, i + 1)))
              && (inputs[i] in NoOptions && r.Ok? ==>
                    && r.value.consumed >= i + 2
                    && FirstSettling(inputs, i + 1, CustomValue, r.value.consumed - 1)
                    && r.value.value == Str(inputs[r.value.consumed - 1]))
              && (inputs[i] in NoOptions && r.Err? ==> forall k :: i < k < |inputs| ==> inputs[k] == "")
  {
  }

  /** The loop `while not conf: conf = input(...)` started at line `from`:
      the first non-empty line from there, or `EOFError` when only empty
      lines remain. */
  function Custom(inputs: seq<string>, from: nat): (r: Result<Answer>)
    ensures r.Ok? ==> && r.value.consumed >= from + 1
                      && FirstSettling(inputs, from, CustomValue, r.value.consumed - 1)
                      && r.value.value == Str(inputs[r.value.consumed - 1])
    ensures r.Err? ==> r.error == EOFError && forall k :: from <= k < |inputs| ==> inputs[k] == ""
  {
    match Ask(inputs, from, CustomValue)
    case Err(e) => Err(e)
    case Ok(j) => Ok(Answer(Str(inputs[j]), j + 1))
  }

  // ---------------------------------------------------------------------
  // Writing a value at a dotted key
  // ---------------------------------------------------------------------

  /** The dotted path `segs` can be written into `s`: `s` is a table, and
      where the next segment already exists it is again writable. */
  ghost predicate Writable(s: Value, segs: seq<string>)
    requires |segs| >= 1
    decreases |segs|
  {
    && s.Table?
    && (|segs| > 1 && segs[0] in s.entries ==> Writable(s.entries[segs[0]], segs[1..]))
  }

  /** `_set_config(s, k, v)`: the table `s` with `v` stored at the dotted key
      `k`, missing intermediate tables created (`setdefault`) and existing
      ones reused. An existing intermediate that is not a table has no
      `setdefault` (`AttributeError`); a final one cannot be assigned into
      (`TypeError`). */
  function SetConfig(s: Value, k: string, v: Value): (r: Result<Value>)
    ensures r.Ok? <==> Writable(s, Split(k))
    ensures r.Err? ==> r.error == AttributeError("setdefault") || r.error == TypeError(NoItemAssignment)
    // only the first segment's entry of `s` is added or replaced
    ensures r.Ok? ==> && r.value.Table?
                      && r.value.entries.Keys == s.entries.Keys + {Split(k)[0]}
                      && forall j :: j in s.entries && j != Split(k)[0] ==> r.value.entries[j] == s.entries[j]
    decreases |Split(k)|
  {
    var segs := Split(k);
    var here := segs[0];
    if |segs| > 1 then
      if !s.Table? then Err(AttributeError("setdefault"))
      else
        var child := if here in s.entries then s.entries[here] else Table(map[]);
        RestRoundTrip(k);
        match SetConfig(child, Join(segs[1..]), v)
        case Err(e) => Err(e)
        case Ok(c) => Ok(Table(s.entries[here := c]))
    else if s.Table? then Ok(Table(s.entries[here := v]))
    else Err(TypeError(NoItemAssignment))
  }

  /** A key without a dot is a plain assignment `s[k] = v`. */
  lemma SetConfigSingleSegment(m: map<string, Value>, k: string, v: Value)
    requires '.' !in k
    ensures SetConfig(Table(m), k, v) == Ok(Table(m[k := v]))
  {
    SplitDotFree(k);
  }

  /** A two-segment key `a.b` creates the table `a` when it is missing and
      reuses it when it exists (`setdefault`), keeping its other entries. */
  lemma SetConfigReusesTable(m: map<string, Value>, a: string, b: string, v: Value)
    requires '.' !in a && '.' !in b
    requires a in m ==> m[a].Table?
    ensures var inner := if a in m then m[a].entries else map[];
            SetConfig(Table(m), a + "." + b, v) == Ok(Table(m[a := Table(inner[b := v])]))
  {
    SplitTwo(a, b);
    var segs := Split(a + "." + b);
    assert segs[1..] == [b];
    assert Join(segs[1..]) == b;
    var inner := if a in m then m[a].entries else map[];
    SetConfigSingleSegment(inner, b, v);
  }

  /** Round trip: after storing `v` at `k`, looking `k` up segment by segment
      (as a property resolution does) finds `v`. */
  lemma {:induction false} SetThenWalk(s: Value, k: string, v: Value)
    requires SetConfig(s, k, v).Ok?
    ensures Walk(SetConfig(s, k, v).value, Split(k)) == Ok(v)
    decreases |Split(k)|
  {
    var segs := Split(k);
    var t := SetConfig(s, k, v).value;
    if |segs| > 1 {
      var here := segs[0];
      var child := if here in s.entries then s.entries[here] else Table(map[]);
      RestRoundTrip(k);
      SetThenWalk(child, Join(segs[1..]), v);
      assert Walk(t, segs) == Walk(t.entries[here], segs[1..]);
    } else {
      assert Walk(t, segs) == Walk(v, segs[1..]);
    }
  }

  /** Path `p` leaves path `q` somewhere: at some position both have a
      segment and the segments differ. */
  predicate Diverges(p: seq<string>, q: seq<string>)
    decreases |p|
  {
    |p| > 0 && |q| > 0 && (p[0] != q[0] || Diverges(p[1..], q[1..]))
  }

  /** Storing at `k` changes nothing that lies off the path of `k`: every
      value found at a path leaving `k`'s path is still found there. */
  lemma {:induction false} SetConfigFrame(s: Value, k: string, v: Value, q: seq<string>)
    requires SetConfig(s, k, v).Ok?
    requires Diverges(q, Split(k))
    requires Walk(s, q).Ok?
    ensures Walk(SetConfig(s, k, v).value, q) == Walk(s, q)
    decreases |Split(k)|
  {
    var segs := Split(k);
    var here := segs[0];
    var t := SetConfig(s, k, v).value;
    assert s.Table? && q[0] in s.entries;
    if q[0] != here {
      assert Walk(t, q) == Walk(t.entries[q[0]], q[1..]);
    } else {
      var child := s.entries[here];
      RestRoundTrip(k);
      SetConfigFrame(child, Join(segs[1..]), v, q[1..]);
      assert Walk(t, q) == Walk(t.entries[here], q[1..]);
    }
  }

  /** Two writes whose keys share their first segment but leave each other's
      path land in one shared table: both values are found afterwards, and
      the result has that single top-level key. */
  lemma WritesShareTable(k1: string, k2: string, v1: Value, v2: Value)
    requires Split(k1)[0] == Split(k2)[0]
    requires Diverges(Split(k1), Split(k2))
    ensures SetConfig(Table(map[]), k1, v1).Ok?
    ensures SetConfig(SetConfig(Table(map[]), k1, v1).value, k2, v2).Ok?
    ensures var t := SetConfig(SetConfig(Table(map[]), k1, v1).value, k2, v2).value;
            && t.entries.Keys == {Split(k1)[0]}
            && Walk(t, Split(k1)) == Ok(v1)
            && Walk(t, Split(k2)) == Ok(v2)
  {
    var empty := Table(map[]);
    WriteIntoEmpty(k1, v1);
    var t1 := SetConfig(empty, k1, v1).value;
    SetThenWalk(empty, k1, v1);
    assert Writable(empty, Split(k2));
    DivergesSymmetric(Split(k1), Split(k2));
    WritableAfterWrite(empty, k1, v1, Split(k2));
    var t := SetConfig(t1, k2, v2).value;
    assert t.entries.Keys == t1.entries.Keys + {Split(k2)[0]};
    SetThenWalk(t1, k2, v2);
    SetConfigFrame(t1, k2, v2, Split(k1));
  }

  /** Writing into `{}` gives a table with the key's first segment alone. */
  lemma WriteIntoEmpty(k: string, v: Value)
    ensures SetConfig(Table(map[]), k, v).Ok?
    ensures SetConfig(Table(map[]), k, v).value.entries.Keys == {Split(k)[0]}
  {
    var e: map<string, Value> := map[];
    assert Table(e).entries.Keys == {};
  }

  /** Leaving each other is symmetric. */
  lemma {:induction false} DivergesSymmetric(p: seq<string>, q: seq<string>)
    requires Diverges(p, q)
    ensures Diverges(q, p)
    decreases |p|
  {
    if p[0] == q[0] {
      DivergesSymmetric(p[1..], q[1..]);
    }
  }

  /** A write keeps every diverging path writable. */
  lemma {:induction false} WritableAfterWrite(s: Value, k: string, v: Value, q: seq<string>)
    requires SetConfig(s, k, v).Ok?
    requires |q| >= 1 && Writable(s, q)
    requires Diverges(q, Split(k))
    ensures Writable(SetConfig(s, k, v).value, q)
    decreases |Split(k)|
  {
    var segs := Split(k);
    var here := segs[0];
    var t := SetConfig(s, k, v).value;
    if q[0] == here && |q| > 1 {
      var child := if here in s.entries then s.entries[here] else Table(map[]);
      RestRoundTrip(k);
      WritableAfterWrite(child, Join(segs[1..]), v, q[1..]);
    }
  }

  // ---------------------------------------------------------------------
  // Enumerating the properties of a class
  // ---------------------------------------------------------------------

  /** A class attribute: a declared property, or anything else. */
  datatype Attribute = PropertyAttr(prop: Descriptor) | OtherAttr

  /** `Cli.config_properties`: the (name, property) pairs of the attributes
      (given in `dir()` order) that are properties, in the same order. */
  function ConfigProperties(attrs: seq<(string, Attribute)>): (r: seq<(string, Descriptor)>)
    ensures |r| <= |attrs|
    ensures (forall j :: 0 <= j < |attrs| ==> !attrs[j].1.PropertyAttr?) ==> r == []
  {
    if |attrs| == 0 then []
    else
      var rest := ConfigProperties(attrs[1..]);
      assert forall j :: 0 <= j < |attrs[1..]| ==> attrs[1..][j] == attrs[j + 1];
      if attrs[0].1.PropertyAttr? then [(attrs[0].0, attrs[0].1.prop)] + rest else rest
  }

  /** Every enumerated pair is an attribute of the class that is a property. */
  lemma {:induction false} ConfigPropertiesSound(attrs: seq<(string, Attribute)>, i: nat)
    requires i < |ConfigProperties(attrs)|
    ensures exists j :: 0 <= j < |attrs|
                        && attrs[j] == (ConfigProperties(attrs)[i].0, PropertyAttr(ConfigProperties(attrs)[i].1))
  {
    var rest := ConfigProperties(attrs[1..]);
    if attrs[0].1.PropertyAttr? && i == 0 {
      assert attrs[0] == (ConfigProperties(attrs)[0].0, PropertyAttr(ConfigProperties(attrs)[0].1));
    } else {
      var i' := if attrs[0].1.PropertyAttr? then i - 1 else i;
      assert ConfigProperties(attrs)[i] == rest[i'];
      ConfigPropertiesSound(attrs[1..], i');
      var j :| 0 <= j < |attrs[1..]| && attrs[1..][j] == (rest[i'].0, PropertyAttr(rest[i'].1));
      assert attrs[j + 1] == attrs[1..][j];
    }
  }

  /** Every property attribute of the class is enumerated, under its name. */
  lemma {:induction false} ConfigPropertiesComplete(attrs: seq<(string, Attribute)>, j: nat)
    requires j < |attrs| && attrs[j].1.PropertyAttr?
    ensures exists i :: 0 <= i < |ConfigProperties(attrs)|
                        && ConfigProperties(attrs)[i] == (attrs[j].0, attrs[j].1.prop)
  {
    var r := ConfigProperties(attrs);
    var rest := ConfigProperties(attrs[1..]);
    if j == 0 {
      assert r[0] == (attrs[0].0, attrs[0].1.prop);
    } else {
      assert attrs[1..][j - 1] == attrs[j];
      ConfigPropertiesComplete(attrs[1..], j - 1);
      var i :| 0 <= i < |rest| && rest[i] == (attrs[j].0, attrs[j].1.prop);
      if attrs[0].1.PropertyAttr? {
        assert r[i + 1] == rest[i];
      } else {
        assert r[i] == rest[i];
      }
    }
  }

  /** Python's `a < b` on strings: lexicographic order of code points. */
  predicate Before(a: string, b: string)
    decreases |a|
  {
    |b| > 0 && (|a| == 0 || a[0] < b[0] || (a[0] == b[0] && Before(a[1..], b[1..])))
  }

  /** The names of a list of pairs are strictly increasing, as `dir()` lists them. */
  ghost predicate SortedNames<T>(xs: seq<(string, T)>) {
    forall i, j :: 0 <= i < j < |xs| ==> Before(xs[i].0, xs[j].0)
  }

  /** Properties are enumerated in `dir()` order: sorted attribute names give
      sorted property names. */
  lemma {:induction false} ConfigPropertiesSorted(attrs: seq<(string, Attribute)>)
    requires SortedNames(attrs)
    ensures SortedNames(ConfigProperties(attrs))
  {
    if |attrs| != 0 {
      var rest := ConfigProperties(attrs[1..]);
      assert SortedNames(attrs[1..]) by {
        forall i, j | 0 <= i < j < |attrs[1..]| ensures Before(attrs[1..][i].0, attrs[1..][j].0) {
          assert attrs[1..][i] == attrs[i + 1] && attrs[1..][j] == attrs[j + 1];
        }
      }
      ConfigPropertiesSorted(attrs[1..]);
      if attrs[0].1.PropertyAttr? {
        var r := ConfigProperties(attrs);
        assert r == [(attrs[0].0, attrs[0].1.prop)] + rest;
        forall i, j | 0 <= i < j < |r| ensures Before(r[i].0, r[j].0) {
          if i == 0 {
            ConfigPropertiesSound(attrs[1..], j - 1);
            var m :| 0 <= m < |attrs[1..]| && attrs[1..][m] == (rest[j - 1].0, PropertyAttr(rest[j - 1].1));
            assert attrs[m + 1] == attrs[1..][m];
            assert r[j] == rest[j - 1];
          } else {
            assert r[i] == rest[i - 1] && r[j] == rest[j - 1];
          }
        }
      }
    }
  }

  // ---------------------------------------------------------------------
  // Building the settings of a class
  // ---------------------------------------------------------------------

  /** `prop.cls(value)`: the class applied to an answer, which may raise. */
  type Convert = (ClassSpec, Value) -> Result<Value>

  /** The default offered at the prompt: the literal of a literal default,
      obtained by calling its constant function with `None`; `None` for a
      property without a default or with a `default_func`. */
  function OfferedDefault(p: Descriptor): (r: Result<Value>)
    ensures !p.defaultSet || p.defaultValue ==> r == Ok(NoneValue)
  {
    if p.defaultSet && !p.defaultValue then
      match p.defaultFunc
      case None => Err(TypeError(NotCallable))
      case Some(f) => f(None).result
    else Ok(NoneValue)
  }

  /** The prompt for one property: required exactly when it has no default. */
  function AskProperty(p: Descriptor, inputs: seq<string>): (r: Result<Answer>)
    ensures r.Ok? ==> 1 <= r.value.consumed <= |inputs|
  {
    match OfferedDefault(p)
    case Err(e) => Err(e)
    case Ok(d) => Prompt(!p.defaultSet, d, inputs)
  }

  /** Storing one answer: a falsy answer is skipped, otherwise the converted
      answer is written at the property's key. */
  function Store(settings: Value, p: Descriptor, answer: Value, convert: Convert): (r: Result<Value>)
    ensures !Truthy(answer) ==> r == Ok(settings)
    ensures Truthy(answer) && convert(p.cls, answer).Err? ==> r == convert(p.cls, answer)
    // a truthy answer that converts is stored exactly when the key is writable
    ensures Truthy(answer) && convert(p.cls, answer).Ok? ==> (r.Ok? <==> Writable(settings, Split(p.key)))
    // what was stored is what a lookup of the key finds
    ensures r.Ok? && Truthy(answer) ==> Walk(r.value, Split(p.key)) == convert(p.cls, answer)
    ensures r.Ok? && settings.Table? ==>
              r.value.Table? && r.value.entries.Keys <= settings.entries.Keys + {Split(p.key)[0]}
  {
    if !Truthy(answer) then Ok(settings)
    else
      match convert(p.cls, answer)
      case Err(e) => Err(e)
      case Ok(c) =>
        var t := SetConfig(settings, p.key, c);
        if t.Ok? then SetThenWalk(settings, p.key, c); t else t
  }

  /** What the builder has produced: the settings table and the number of
      input lines read. */
  datatype Built = Built(settings: Value, consumed: nat)

  /** The loop of `input_configs` over `props`, in order, starting from `{}`. */
  function InputAll(props: seq<(string, Descriptor)>, inputs: seq<string>, convert: Convert): (r: Result<Built>)
    ensures r.Ok? ==> r.value.consumed <= |inputs| && r.value.settings.Table?
    decreases |props|
  {
    if |props| == 0 then Ok(Built(Table(map[]), 0))
    else
      var n := |props| - 1;
      match InputAll(props[..n], inputs, convert)
      case Err(e) => Err(e)
      case Ok(b) =>
        var p := props[n].1;
        match AskProperty(p, inputs[b.consumed..])
        case Err(e) => Err(e)
        case Ok(a) =>
          match Store(b.settings, p, a.value, convert)
          case Err(e) => Err(e)
          case Ok(s) => Ok(Built(s, b.consumed + a.consumed))
  }

  /** Every top-level table the builder creates is the first segment of some
      property's key. */
  lemma {:induction false} InputAllKeys(props: seq<(string, Descriptor)>, inputs: seq<string>, convert: Convert)
    requires InputAll(props, inputs, convert).Ok?
    ensures forall k :: k in InputAll(props, inputs, convert).value.settings.entries ==>
              exists i :: 0 <= i < |props| && Split(props[i].1.key)[0] == k
    decreases |props|
  {
    if |props| != 0 {
      var n := |props| - 1;
      var b := InputAll(props[..n], inputs, convert).value;
      InputAllKeys(props[..n], inputs, convert);
      var s := InputAll(props, inputs, convert).value.settings;
      forall k | k in s.entries ensures exists i :: 0 <= i < |props| && Split(props[i].1.key)[0] == k {
        if k in b.settings.entries {
          var i :| 0 <= i < |props[..n]| && Split(props[..n][i].1.key)[0] == k;
          assert props[i] == props[..n][i];
        } else {
          assert Split(props[n].1.key)[0] == k;
        }
      }
    }
  }

  /** `Cli(cls).input_configs()` reading the lines `inputs`. */
  function InputConfigs(attrs: seq<(string, Attribute)>, inputs: seq<string>, convert: Convert): (r: Result<Built>)
    ensures r.Ok? ==> r.value.consumed <= |inputs| && r.value.settings.Table?
    // a class without properties asks nothing and builds `{}`
    ensures (forall j :: 0 <= j < |attrs| ==> !attrs[j].1.PropertyAttr?) ==> r == Ok(Built(Table(map[]), 0))
    // every top-level table comes from the key of one of the class's properties
    ensures r.Ok? ==> forall k :: k in r.value.settings.entries ==>
              exists j :: 0 <= j < |attrs| && attrs[j].1.PropertyAttr? && Split(attrs[j].1.prop.key)[0] == k
  {
    var props := ConfigProperties(attrs);
    var r := InputAll(props, inputs, convert);
    assert r.Ok? ==> forall k :: k in r.value.settings.entries ==>
             exists j :: 0 <= j < |attrs| && attrs[j].1.PropertyAttr? && Split(attrs[j].1.prop.key)[0] == k by {
      if r.Ok? {
        InputAllKeys(props, inputs, convert);
        forall k | k in r.value.settings.entries
          ensures exists j :: 0 <= j < |attrs| && attrs[j].1.PropertyAttr? && Split(attrs[j].1.prop.key)[0] == k
        {
          var i :| 0 <= i < |props| && Split(props[i].1.key)[0] == k;
          ConfigPropertiesSound(attrs, i);
          var j :| 0 <= j < |attrs| && attrs[j] == (props[i].0, PropertyAttr(props[i].1));
          assert attrs[j].1.prop == props[i].1;
        }
      }
    }
    r
  }

  /** The property asked last and answered with something truthy is found at
      its key in the built settings, converted. */
  lemma LastAnswerReadBack(props: seq<(string, Descriptor)>, inputs: seq<string>, convert: Convert, b: Built, a: Answer)
    requires |props| > 0
    requires InputAll(props[..|props| - 1], inputs, convert) == Ok(b)
    requires AskProperty(props[|props| - 1].1, inputs[b.consumed..]) == Ok(a) && Truthy(a.value)
    requires InputAll(props, inputs, convert).Ok?
    ensures var p := props[|props| - 1].1;
            Walk(InputAll(props, inputs, convert).value.settings, Split(p.key)) == convert(p.cls, a.value)
  {
  }

  /** A successful run of the builder is a successful run over all but the
      last property, followed by a successful prompt for the last one. */
  lemma InputAllPrefixOk(props: seq<(string, Descriptor)>, inputs: seq<string>, convert: Convert)
    requires |props| > 0 && InputAll(props, inputs, convert).Ok?
    ensures InputAll(props[..|props| - 1], inputs, convert).Ok?
    ensures AskProperty(props[|props| - 1].1, inputs[InputAll(props[..|props| - 1], inputs, convert).value.consumed..]).Ok?
  {
  }

  /** One step of the builder: the settings after the last property are the
      settings before it with that property's answer stored. */
  lemma InputAllStep(props: seq<(string, Descriptor)>, inputs: seq<string>, convert: Convert, b: Built, a: Answer)
    requires |props| > 0 && InputAll(props, inputs, convert).Ok?
    requires InputAll(props[..|props| - 1], inputs, convert) == Ok(b)
    requires AskProperty(props[|props| - 1].1, inputs[b.consumed..]) == Ok(a)
    ensures Store(b.settings, props[|props| - 1].1, a.value, convert).Ok?
    ensures InputAll(props, inputs, convert).value.settings == Store(b.settings, props[|props| - 1].1, a.value, convert).value
  {
  }

  /** Storing an answer keeps every value found at a path that leaves the
      property's key. */
  lemma StoreFrame(settings: Value, p: Descriptor, answer: Value, convert: Convert, q: seq<string>)
    requires Store(settings, p, answer, convert).Ok?
    requires Walk(settings, q).Ok? && Diverges(q, Split(p.key))
    ensures Walk(Store(settings, p, answer, convert).value, q) == Walk(settings, q)
  {
    if Truthy(answer) {
      SetConfigFrame(settings, p.key, convert(p.cls, answer).value, q);
    }
  }

  /** A prefix of a prefix is a prefix. */
  lemma PrefixOfPrefix<T>(s: seq<T>, n: nat, m: nat)
    requires m <= n <= |s|
    ensures s[..n][..m] == s[..m]
  {
  }

  /** The key of every property after the `m`-th leaves the `m`-th key's path. */
  ghost predicate LaterKeysDiverge(props: seq<(string, Descriptor)>, m: nat)
    requires m < |props|
  {
    forall n :: m < n < |props| ==> Diverges(Split(props[m].1.key), Split(props[n].1.key))
  }

  /** Dropping properties from the end keeps the later keys diverging. */
  lemma LaterKeysDivergePrefix(props: seq<(string, Descriptor)>, m: nat, k: nat)
    requires m < k <= |props| && LaterKeysDiverge(props, m)
    ensures LaterKeysDiverge(props[..k], m)
  {
    forall j | m < j < k ensures Diverges(Split(props[..k][m].1.key), Split(props[..k][j].1.key)) {
      assert props[..k][j] == props[j] && props[..k][m] == props[m];
    }
  }

  /** A value found in the settings before the last property is asked is
      still found after it, when the last key leaves its path. */
  lemma StepKeeps(props: seq<(string, Descriptor)>, inputs: seq<string>, convert: Convert, q: seq<string>, c: Value)
    requires |props| > 0 && InputAll(props, inputs, convert).Ok?
    requires InputAll(props[..|props| - 1], inputs, convert).Ok?
    requires Walk(InputAll(props[..|props| - 1], inputs, convert).value.settings, q) == Ok(c)
    requires Diverges(q, Split(props[|props| - 1].1.key))
    ensures Walk(InputAll(props, inputs, convert).value.settings, q) == Ok(c)
  {
    InputAllPrefixOk(props, inputs, convert);
    var prev := InputAll(props[..|props| - 1], inputs, convert).value;
    var p := props[|props| - 1].1;
    var a := AskProperty(p, inputs[prev.consumed..]).value;
    InputAllStep(props, inputs, convert, prev, a);
    StoreFrame(prev.settings, p, a.value, convert, q);
  }

  /** Any property's truthy answer, converted, is found at its key in the
      built settings, provided the key of every property asked after it
      leaves its path: later writes elsewhere keep it. A later property
      answered with a truthy value replaces it when its key is equal to it
      or a dotted prefix of it, and writes inside the stored value or raises
      when its key extends it. */
  lemma {:induction false} AnswerReadBack(props: seq<(string, Descriptor)>, inputs: seq<string>, convert: Convert,
                                          m: nat, b: Built, a: Answer, c: Value)
    requires m < |props|
    requires InputAll(props[..m], inputs, convert) == Ok(b)
    requires AskProperty(props[m].1, inputs[b.consumed..]) == Ok(a) && Truthy(a.value)
    requires convert(props[m].1.cls, a.value) == Ok(c)
    requires LaterKeysDiverge(props, m)
    requires InputAll(props, inputs, convert).Ok?
    ensures Walk(InputAll(props, inputs, convert).value.settings, Split(props[m].1.key)) == Ok(c)
    decreases |props|
  {
    if m < |props| - 1 {
      var n := |props| - 1;
      var init := props[..n];
      assert InputAll(init, inputs, convert).Ok? by {
        InputAllPrefixOk(props, inputs, convert);
      }
      assert InputAll(init[..m], inputs, convert) == Ok(b) && init[m] == props[m] by {
        PrefixOfPrefix(props, n, m);
      }
      assert LaterKeysDiverge(init, m) by {
        LaterKeysDivergePrefix(props, m, n);
      }
      AnswerReadBack(init, inputs, convert, m, b, a, c);
      assert Diverges(Split(props[m].1.key), Split(props[n].1.key));
      StepKeeps(props, inputs, convert, Split(props[m].1.key), c);
    } else {
      LastAnswerReadBack(props, inputs, convert, b, a);
    }
  }

  /** With a `default_func`, answering "use default" stores nothing: the
      builder offers `None` rather than calling the function. */
  lemma ComputedDefaultNotStored(p: Descriptor, inputs: seq<string>, settings: Value, convert: Convert, i: nat)
    requires p.defaultSet && p.defaultValue
    requires FirstSettling(inputs, 0, UseDefault, i) && inputs[i] in YesOptions
    ensures AskProperty(p, inputs) == Ok(Answer(NoneValue, i + 1))
    ensures Store(settings, p, NoneValue, convert) == Ok(settings)
  {
  }

  /** With a literal default, answering "use default" answers that literal. */
  lemma LiteralDefaultOffered(key: string, cls: ClassSpec, docstring: Option<string>, d: Value, warn: Option<bool>,
                              inputs: seq<string>, i: nat)
    requires FirstSettling(inputs, 0, UseDefault, i) && inputs[i] in YesOptions
    ensures NewProperty(key, cls, docstring, Options(Some(d), None, warn)).Ok?
    ensures AskProperty(NewProperty(key, cls, docstring, Options(Some(d), None, warn)).value, inputs)
            == Ok(Answer(d, i + 1))
  {
  }

  /** A required property never asks yes/no: even a line "y" is taken as its value. */
  lemma RequiredTakesAnyNonEmptyLine(key: string, cls: ClassSpec, docstring: Option<string>, line: string, rest: seq<string>)
    requires line != ""
    ensures NewProperty(key, cls, docstring, Options(None, None, None)).Ok?
    ensures AskProperty(NewProperty(key, cls, docstring, Options(None, None, None)).value, [line] + rest)
            == Ok(Answer(Str(line), 1))
  {
  }
}
