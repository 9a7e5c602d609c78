/** Python values as requests carry them, and the JSON form that the cache key gives them. */
module PyValues {
  import opened Common

  /** A key of a mapping: a string, or another object, of which a key shows only its text. */
  datatype PyKey = Text(text: string) | Other(identity: nat, shown: string)

  datatype Special = Infinity | NegativeInfinity | NotANumber

  /**
    A mapping keeps the order in which its keys were inserted. An opaque value is an instance of
    any class without a JSON form, bytes among them.
  */
  datatype PyValue =
    | None_
    | Bool(b: bool)
    | Int(i: int)
    | Float(r: real)
    | NonFinite(x: Special)
    | Str(s: string)
    | List(items: seq<PyValue>)
    | Tuple(items: seq<PyValue>)
    | Dict(fields: map<PyKey, PyValue>, order: seq<PyKey>)
    | Opaque(moduleName: string, qualName: string, identity: nat)

  datatype Json =
    | JNull
    | JBool(b: bool)
    | JInt(i: int)
    | JFloat(r: real)
    | JStr(s: string)
    | JList(items: seq<Json>)
    | JMap(fields: map<string, Json>)

  /** The value under a key, or None. */
  function Get(fields: map<string, PyValue>, name: string): PyValue {
    if name in fields then fields[name] else None_
  }

  function Field(v: PyValue, name: string): PyValue {
    if v.Dict? && Text(name) in v.fields then v.fields[Text(name)] else None_
  }

  /** What `str` makes of a key. */
  function Shown(k: PyKey): string {
    match k
    case Text(text) => text
    case Other(_, shown) => shown
  }

  function ShownSpecial(x: Special): string {
    match x
    case Infinity => "inf"
    case NegativeInfinity => "-inf"
    case NotANumber => "nan"
  }

  /** The key whose value is kept under a text: of several keys with one text, the last. */
  function Keeper(order: seq<PyKey>, fields: map<PyKey, PyValue>, text: string): (k: Option<PyKey>)
    ensures k.Some? ==> k.value in fields && Shown(k.value) == text
    decreases |order|
  {
    if order == [] then None
    else
      var last := order[|order| - 1];
      if last in fields && Shown(last) == text then Some(last) else Keeper(order[..|order| - 1], fields, text)
  }

  /** The texts of the keys. */
  function Texts(order: seq<PyKey>, fields: map<PyKey, PyValue>): set<string> {
    set k | k in order && k in fields :: Shown(k)
  }

  /** The name of a class as it appears in a key. */
  function ClassName(moduleName: string, qualName: string): string {
    moduleName + "." + qualName
  }

  /** What a value without a JSON form leaves: the name of its class. */
  function TypeMark(name: string): Json {
    JMap(map["type" := JStr(name)])
  }

  function FloatMark(x: Special): Json {
    JMap(map["type" := JStr("float"), "value" := JStr(ShownSpecial(x))])
  }

  /** The JSON form of a value in a cache key. */
  function Canonical(v: PyValue): Json
    decreases v
  {
    match v
    case None_ => JNull
    case Bool(b) => JBool(b)
    case Int(i) => JInt(i)
    case Float(r) => JFloat(r)
    case Str(s) => JStr(s)
    case NonFinite(x) => FloatMark(x)
    case List(items) => JList(seq(|items|, i requires 0 <= i < |items| => Canonical(items[i])))
    case Tuple(items) => JList(seq(|items|, i requires 0 <= i < |items| => Canonical(items[i])))
    case Dict(fields, order) =>
      JMap(map t | t in Texts(order, fields) && Keeper(order, fields, t).Some? :: Canonical(fields[Keeper(order, fields, t).value]))
    case Opaque(moduleName, qualName, _) => TypeMark(ClassName(moduleName, qualName))
  }
}
