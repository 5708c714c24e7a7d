/** Values of a parsed settings document, the Python exceptions the
    configuration engine raises, and the closed set of classes that
    `isinstance` is asked about. */
module Values {

  /** A value of a parsed TOML document: scalars and tables with string keys.
      `NoneValue` is Python's `None`, which a declared default may be. */
  datatype Value =
    | Int(i: int)
    | Bool(b: bool)
    | Str(s: string)
    | NoneValue
    | Table(entries: map<string, Value>)

  datatype Option<+T> = None | Some(value: T)

  /** Why a `TypeError` was raised. */
  datatype TypeErrorReason =
    | ExclusiveDefaults             // `default` together with `default_func`
    | WarningWithoutDefault         // `default_warning` without any default
    | NotSubscriptable(key: string) // `value[key]` on a value that is not a table
    | NotInstance(key: string, found: Value) // the found value fails `isinstance`
    | NoItemAssignment              // `s[k] = v` on a value that is not a table
    | NotCallable                   // calling a `default_func` that is `None`

  /** The Python exceptions the modelled code raises or lets propagate. */
  datatype Error =
    | KeyError(key: Value)
    | TypeError(reason: TypeErrorReason)
    | AttributeError(attribute: string)
    | EOFError

  datatype Result<+T> = Ok(value: T) | Err(error: Error)

  /** Python truthiness of a value: every value is truthy except the five
      falsy ones, `0`, `False`, `''`, `None` and `{}`. */
  predicate Truthy(v: Value)
    ensures !Truthy(v) <==> v in {Int(0), Bool(false), Str(""), NoneValue, Table(map[])}
  {
    match v
    case Int(i) => i != 0
    case Bool(b) => b
    case Str(s) => s != ""
    case NoneValue => false
    case Table(m) => |m| != 0
  }

  /** The classes a property may be declared with: `int`, `bool`, `str`,
      `NoneType` and `dict`. */
  datatype TypeTag = IntType | BoolType | StrType | NoneType | DictType

  /** A declared class: a plain class, or a `typing.Union` whose members
      `isinstance` is tried against as a tuple. */
  datatype ClassSpec = Plain(tag: TypeTag) | Union(members: seq<TypeTag>)

  /** The classes on the method resolution order of `type(v)` (leaving out
      `object`): `bool` derives from `int`, every other class stands alone. */
  function Mro(v: Value): set<TypeTag> {
    match v
    case Int(_) => {IntType}
    case Bool(_) => {BoolType, IntType}
    case Str(_) => {StrType}
    case NoneValue => {NoneType}
    case Table(_) => {DictType}
  }

  /** `isinstance(v, t)` for one class: `t` is one of the classes `type(v)`
      derives from. */
  predicate InstanceOf(v: Value, t: TypeTag)
    ensures InstanceOf(v, t) <==> t in Mro(v)
  {
    match t
    case IntType => v.Int? || v.Bool?
    case BoolType => v.Bool?
    case StrType => v.Str?
    case NoneType => v.NoneValue?
    case DictType => v.Table?
  }

  /** `isinstance(v, cls)`, with a union checked against all of its members. */
  predicate IsInstance(v: Value, cls: ClassSpec)
    ensures cls.Plain? ==> (IsInstance(v, cls) <==> cls.tag in Mro(v))
    ensures cls.Union? ==> (IsInstance(v, cls) <==> exists i | 0 <= i < |cls.members| :: cls.members[i] in Mro(v))
  {
    match cls
    case Plain(t) => InstanceOf(v, t)
    case Union(ts) => exists i | 0 <= i < |ts| :: InstanceOf(v, ts[i])
  }
}
