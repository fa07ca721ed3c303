/** The Python values the service helpers receive and return: form fields,
    JSON-like dictionaries, and the two things Python does with any value
    here, testing its truthiness and turning it into text with `str()`. */
module Values {
  import opened Text
  import opened Calendar

  datatype Option<+T> = None | Some(value: T)

  /** A scalar: `None`, a bool, an int, a str or a `datetime.date`. */
  datatype Field = Null | Bool(b: bool) | Int(i: int) | Str(s: string) | Day(date: Date)

  /** A scalar or a dictionary with string keys. */
  datatype Value = Atom(field: Field) | Dict(entries: map<string, Value>)

  function StrValue(s: string): Value
  {
    Atom(Str(s))
  }

  const NoneValue: Value := Atom(Null)

  /** Python truthiness: `None`, `False`, `0`, `''` and `{}` are false,
      everything else (every date included) is true. */
  predicate Truthy(v: Value)
  {
    match v
    case Atom(Null) => false
    case Atom(Bool(b)) => b
    case Atom(Int(i)) => i != 0
    case Atom(Str(s)) => s != ""
    case Atom(Day(_)) => true
    case Dict(m) => m != map[]
  }

  /** `str(v)` of a scalar. */
  function Display(f: Field): string
  {
    match f
    case Null => "None"
    case Bool(b) => if b then "True" else "False"
    case Int(i) => IntToString(i)
    case Str(s) => s
    case Day(d) => IsoFormat(d)
  }

  /** `d.get(key, default)`: the stored value when the key is present,
      however falsy, and the default only when it is absent. */
  function Get<V>(d: map<string, V>, key: string, default: V): V
  {
    if key in d then d[key] else default
  }
}
