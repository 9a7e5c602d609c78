/**
  The argument validator of kernel/tools/runtime.py: two mutually recursive procedures that
  return the first error, against the list of all errors and a declarative relation.
*/
module SchemaValidator {
  import opened Common

  /** Python values as they arrive in tool arguments and parameter schemas. */
  datatype Value =
    | None_
    | Bool(b: bool)
    | Int(i: int)
    | Float(r: real)
    | Str(s: string)
    | Bytes(data: string)
    | List(items: seq<Value>)
    | Tuple(items: seq<Value>)
    | Mapping(fields: map<string, Value>)
    | Object

  // ----- Key order -----

  /** The order of strings by code points. */
  predicate LexLeq(a: string, b: string) {
    a == [] || (b != [] && (a[0] < b[0] || (a[0] == b[0] && LexLeq(a[1..], b[1..]))))
  }

  lemma {:induction false} LexTotal(a: string, b: string)
    ensures LexLeq(a, b) || LexLeq(b, a)
    ensures LexLeq(a, b) && LexLeq(b, a) ==> a == b
    decreases |a|
  {
    if a != [] && b != [] {
      LexTotal(a[1..], b[1..]);
      assert a == [a[0]] + a[1..] && b == [b[0]] + b[1..];
    }
  }

  lemma {:induction false} LexTrans(a: string, b: string, c: string)
    requires LexLeq(a, b) && LexLeq(b, c)
    ensures LexLeq(a, c)
    decreases |a|
  {
    if a != [] && a[0] == b[0] && b[0] == c[0] {
      LexTrans(a[1..], b[1..], c[1..]);
    }
  }

  predicate IsLeast(ks: set<string>, m: string) {
    m in ks && forall k | k in ks :: LexLeq(m, k)
  }

  lemma LeastOfMore(ks: set<string>, x: string, m: string)
    requires x in ks && IsLeast(ks - {x}, m)
    ensures IsLeast(ks, if LexLeq(x, m) then x else m)
  {
    hide LexLeq;
    LexTotal(x, m);
    LexTotal(x, x);
    if LexLeq(x, m) {
      forall k | k in ks
        ensures LexLeq(x, k)
      {
        if k != x { LexTrans(x, m, k); }
      }
    }
  }

  lemma {:induction false} HasLeast(ks: set<string>)
    requires ks != {}
    ensures exists m :: IsLeast(ks, m)
    decreases |ks|
  {
    hide LexLeq;
    var x :| x in ks;
    if ks == {x} {
      LexTotal(x, x);
      assert IsLeast(ks, x);
    } else {
      HasLeast(ks - {x});
      var m :| IsLeast(ks - {x}, m);
      LeastOfMore(ks, x, m);
    }
  }

  lemma LeastUnique(ks: set<string>, a: string, b: string)
    requires IsLeast(ks, a) && IsLeast(ks, b)
    ensures a == b
  {
    LexTotal(a, b);
  }

  function Least(ks: set<string>): (m: string)
    requires ks != {}
    ensures IsLeast(ks, m)
  {
    HasLeast(ks);
    assert forall a, b | IsLeast(ks, a) && IsLeast(ks, b) :: a == b by {
      forall a, b | IsLeast(ks, a) && IsLeast(ks, b) ensures a == b { LeastUnique(ks, a, b); }
    }
    var m :| IsLeast(ks, m);
    m
  }

  /** The keys in order. */
  function SortedKeys(ks: set<string>): (s: seq<string>)
    ensures forall k :: k in s <==> k in ks
    decreases |ks|
  {
    if ks == {} then [] else
      var m := Least(ks);
      [m] + SortedKeys(ks - {m})
  }

  /** The order is strict, so it is the only one: the first error is well defined. */
  predicate StrictlySorted(s: seq<string>) {
    forall i, j | 0 <= i < j < |s| :: LexLeq(s[i], s[j]) && s[i] != s[j]
  }

  lemma {:induction false} KeysAreSorted(ks: set<string>)
    ensures |SortedKeys(ks)| == |ks| && StrictlySorted(SortedKeys(ks))
    decreases |ks|
  {
    hide LexLeq;
    if ks != {} {
      hide Least;
      var m := Least(ks);
      KeysAreSorted(ks - {m});
      SortedCons(m, SortedKeys(ks - {m}));
    }
  }

  lemma SortedCons(m: string, rest: seq<string>)
    requires StrictlySorted(rest) && forall r | r in rest :: LexLeq(m, r) && m != r
    ensures StrictlySorted([m] + rest)
  {
    hide LexLeq;
    var s := [m] + rest;
    forall i, j | 0 <= i < j < |s|
      ensures LexLeq(s[i], s[j]) && s[i] != s[j]
    {
      assert s[j] == rest[j - 1] && rest[j - 1] in rest;
      assert i > 0 ==> s[i] == rest[i - 1];
    }
  }

  // ----- Parts of a schema -----

  function Get(schema: map<string, Value>, key: string): Value {
    if key in schema then schema[key] else None_
  }

  /** The declared type, when it is a string. */
  function SchemaType(schema: map<string, Value>): Option<string> {
    if Get(schema, "type").Str? then Some(Get(schema, "type").s) else None
  }

  /** The properties of a schema: an absent or null entry has none. */
  function Properties(schema: map<string, Value>): Option<map<string, Value>> {
    match Get(schema, "properties")
    case None_ => Some(map[])
    case Mapping(fields) => Some(fields)
    case _ => None
  }

  function Required(schema: map<string, Value>): Option<seq<string>> {
    match Get(schema, "required")
    case None_ => Some([])
    case List(items) => if forall i | 0 <= i < |items| :: items[i].Str? then Some(Strings(items)) else None
    case _ => None
  }

  function Strings(items: seq<Value>): (r: seq<string>)
    requires forall i | 0 <= i < |items| :: items[i].Str?
    ensures |r| == |items| && forall i | 0 <= i < |items| :: r[i] == items[i].s
  {
    if items == [] then [] else [items[0].s] + Strings(items[1..])
  }

  predicate Closed(schema: map<string, Value>) {
    Get(schema, "additionalProperties") == Bool(false)
  }

  // ----- The relation -----

  /** `properties` is absent, null or a mapping; `required` is absent, null or a list of strings. */
  predicate WellFormedParts(schema: map<string, Value>) {
    && ("properties" in schema ==> schema["properties"].None_? || schema["properties"].Mapping?)
    && ("required" in schema ==> schema["required"].None_? || schema["required"].List?)
    && ("required" in schema && schema["required"].List? ==>
          forall i | 0 <= i < |schema["required"].items| :: schema["required"].items[i].Str?)
  }

  /** Every required name is there. */
  predicate HasRequired(fields: map<string, Value>, schema: map<string, Value>) {
    "required" in schema && schema["required"].List? ==>
      forall i | 0 <= i < |schema["required"].items| && schema["required"].items[i].Str? :: schema["required"].items[i].s in fields
  }

  /** The names of the properties with a schema. */
  function Declared(schema: map<string, Value>): map<string, Value> {
    if "properties" in schema && schema["properties"].Mapping? then schema["properties"].fields else map[]
  }

  /** A schema that forbids additional properties knows every name. */
  predicate NamesKnown(fields: map<string, Value>, schema: map<string, Value>) {
    "additionalProperties" in schema && schema["additionalProperties"] == Bool(false) ==> fields.Keys <= Declared(schema).Keys
  }

  /**
    The arguments `v` conform to an object schema: its parts are well formed, every required
    name is there, a closed schema knows all names, and known names conform to their schemas.
  */
  ghost predicate ConformsObject(v: Value, schema: map<string, Value>)
    requires v.Mapping?
    decreases v, 1
  {
    && WellFormedParts(schema) && HasRequired(v.fields, schema) && NamesKnown(v.fields, schema)
    && PropertyFits(v, schema)
  }

  ghost predicate PropertyFits(v: Value, schema: map<string, Value>)
    requires v.Mapping?
    decreases v, 0
  {
    forall name | name in v.fields && name in Declared(schema) ::
      Declared(schema)[name].Mapping? && Conforms(v.fields[name], Declared(schema)[name].fields)
  }

  /** The value `v` conforms to a schema: an unknown or missing type allows everything. */
  ghost predicate Conforms(v: Value, schema: map<string, Value>)
    decreases v, 2
  {
    "type" in schema && schema["type"].Str? ==>
      var t := schema["type"].s;
      && (t == "string" ==> v.Str?)
      && (t == "number" ==> v.Int? || v.Float?)
      && (t == "integer" ==> v.Int?)
      && (t == "boolean" ==> v.Bool?)
      && (t == "object" ==> v.Mapping? && ConformsObject(v, schema))
      && (t == "array" ==> v.List? || v.Tuple?)
      && (t == "array" && "items" in schema && schema["items"].Mapping? ==>
            forall i | 0 <= i < |v.items| :: Conforms(v.items[i], schema["items"].fields))
  }

  // ----- All errors, in the fixed order -----

  function Missing(required: seq<string>, fields: map<string, Value>): seq<string> {
    if required == [] then []
    else (if required[0] in fields then [] else ["missing required argument: " + required[0]]) + Missing(required[1..], fields)
  }

  function Unknown(names: seq<string>): seq<string> {
    if names == [] then [] else ["unknown argument: " + names[0]] + Unknown(names[1..])
  }

  function Prefixed(prefix: string, errors: seq<string>): seq<string> {
    if errors == [] then [] else [prefix + errors[0]] + Prefixed(prefix, errors[1..])
  }

  /** Every error of the arguments `v`. A malformed schema part hides what depends on it. */
  function ArgumentErrors(v: Value, schema: map<string, Value>): seq<string>
    requires v.Mapping?
    decreases v, 3, 0
  {
    if Properties(schema).None? then ["parameters_schema properties must be an object"]
    else if Required(schema).None? then ["parameters_schema required must be a list of strings"]
    else
      var properties := Properties(schema).value;
      Missing(Required(schema).value, v.fields)
      + (if Closed(schema) then Unknown(SortedKeys(v.fields.Keys - properties.Keys)) else [])
      + PropertyErrors(v, SortedKeys(properties.Keys), properties)
  }

  function PropertyErrors(v: Value, names: seq<string>, properties: map<string, Value>): seq<string>
    requires v.Mapping? && forall n | n in names :: n in properties
    decreases v, 2, |names|
  {
    if names == [] then []
    else
      var n := names[0];
      (if n !in v.fields then []
       else if !properties[n].Mapping? then ["schema for argument is invalid: " + n]
       else ValueErrors(n, v.fields[n], properties[n].fields))
      + PropertyErrors(v, names[1..], properties)
  }

  function BadType(name: string): string {
    "invalid type for argument: " + name
  }

  /** Every error of the value `v` under the name it is reported with. */
  function ValueErrors(name: string, v: Value, schema: map<string, Value>): seq<string>
    decreases v, 4, 0
  {
    match SchemaType(schema)
    case None => []
    case Some(t) =>
      if t == "string" then (if v.Str? then [] else [BadType(name)])
      else if t == "number" then (if v.Int? || v.Float? then [] else [BadType(name)])
      else if t == "integer" then (if v.Int? then [] else [BadType(name)])
      else if t == "boolean" then (if v.Bool? then [] else [BadType(name)])
      else if t == "object" then (if v.Mapping? then Prefixed(name + ".", ArgumentErrors(v, schema)) else [BadType(name)])
      else if t == "array" then
        (if !v.List? && !v.Tuple? then [BadType(name)]
         else if Get(schema, "items").Mapping? then ItemErrors(name, v, 0, Get(schema, "items").fields)
         else [])
      else []
  }

  function ItemName(name: string, i: nat): string {
    name + "[" + Decimal(i) + "]"
  }

  function ItemErrors(name: string, v: Value, from: nat, schema: map<string, Value>): seq<string>
    requires (v.List? || v.Tuple?) && from <= |v.items|
    decreases v, 2, |v.items| - from
  {
    if from == |v.items| then []
    else ValueErrors(ItemName(name, from), v.items[from], schema) + ItemErrors(name, v, from + 1, schema)
  }

  function First(errors: seq<string>): Option<string> {
    if errors == [] then None else Some(errors[0])
  }

  // ----- Sound and complete -----

  lemma {:induction false} NoneMissing(required: seq<string>, fields: map<string, Value>)
    ensures Missing(required, fields) == [] <==> forall n | n in required :: n in fields
    decreases |required|
  {
    if required != [] {
      NoneMissing(required[1..], fields);
    }
  }

  lemma {:induction false} StringsMembers(items: seq<Value>, n: string)
    requires forall i | 0 <= i < |items| :: items[i].Str?
    ensures n in Strings(items) <==> exists i | 0 <= i < |items| :: items[i].s == n
  {
    if n in Strings(items) {
      var i :| 0 <= i < |items| && Strings(items)[i] == n;
    }
    if exists i | 0 <= i < |items| :: items[i].s == n {
      var i :| 0 <= i < |items| && items[i].s == n;
      assert Strings(items)[i] == n;
    }
  }

  lemma PartsWellFormed(schema: map<string, Value>)
    ensures WellFormedParts(schema) <==> Properties(schema).Some? && Required(schema).Some?
    ensures Properties(schema).Some? ==> Properties(schema).value == Declared(schema)
  {
  }

  lemma RequiredThere(schema: map<string, Value>, fields: map<string, Value>)
    requires WellFormedParts(schema) && Required(schema).Some?
    ensures (forall n | n in Required(schema).value :: n in fields) <==> HasRequired(fields, schema)
  {
    if Get(schema, "required").List? {
      var items := Get(schema, "required").items;
      forall n { StringsMembers(items, n); }
    }
  }

  lemma NothingLeft(a: set<string>, b: set<string>)
    ensures a - b == {} <==> a <= b
  {
    forall x | a - b == {} && x in a
      ensures x in b
    {
      assert x !in a - b;
    }
  }

  lemma NoneUnknown(ks: set<string>)
    ensures Unknown(SortedKeys(ks)) == [] <==> ks == {}
  {
  }

  lemma {:induction false} PropertiesConform(v: Value, names: seq<string>, properties: map<string, Value>)
    requires v.Mapping? && forall n | n in names :: n in properties
    ensures PropertyErrors(v, names, properties) == [] <==>
            forall n | n in names && n in v.fields :: properties[n].Mapping? && Conforms(v.fields[n], properties[n].fields)
    decreases v, 2, |names|
  {
    if names != [] {
      PropertiesConform(v, names[1..], properties);
      var n := names[0];
      if n in v.fields && properties[n].Mapping? {
        ValueConforms(n, v.fields[n], properties[n].fields);
      }
      assert forall m :: m in names <==> m == n || m in names[1..];
    }
  }

  lemma {:induction false} ItemsConform(name: string, v: Value, from: nat, schema: map<string, Value>)
    requires (v.List? || v.Tuple?) && from <= |v.items|
    ensures ItemErrors(name, v, from, schema) == [] <==> forall i | from <= i < |v.items| :: Conforms(v.items[i], schema)
    decreases v, 2, |v.items| - from
  {
    hide Conforms, ValueErrors, ItemName;
    if from < |v.items| {
      ValueConforms(ItemName(name, from), v.items[from], schema);
      ItemsConform(name, v, from + 1, schema);
      assert (forall i | from <= i < |v.items| :: Conforms(v.items[i], schema))
        <==> Conforms(v.items[from], schema) && forall i | from + 1 <= i < |v.items| :: Conforms(v.items[i], schema);
    }
  }

  /** Arguments have no error exactly when they conform to the schema. */
  lemma {:induction false} ArgumentsConform(v: Value, schema: map<string, Value>)
    requires v.Mapping?
    ensures ArgumentErrors(v, schema) == [] <==> ConformsObject(v, schema)
    decreases v, 3, 0
  {
    hide Conforms, Properties, Required, HasRequired, WellFormedParts, SortedKeys;
    PartsWellFormed(schema);
    if WellFormedParts(schema) {
      var properties := Declared(schema);
      RequiredThere(schema, v.fields);
      NoneMissing(Required(schema).value, v.fields);
      NoneUnknown(v.fields.Keys - properties.Keys);
      PropertiesConform(v, SortedKeys(properties.Keys), properties);
      var a := Missing(Required(schema).value, v.fields);
      var b := if Closed(schema) then Unknown(SortedKeys(v.fields.Keys - properties.Keys)) else [];
      var c := PropertyErrors(v, SortedKeys(properties.Keys), properties);
      assert ArgumentErrors(v, schema) == a + b + c;
      assert a == [] <==> HasRequired(v.fields, schema);
      NothingLeft(v.fields.Keys, properties.Keys);
      assert b == [] <==> NamesKnown(v.fields, schema);
      assert c == [] <==> PropertyFits(v, schema);
    }
  }

  /** A value has no error exactly when it conforms to the schema. */
  lemma {:induction false} ValueConforms(name: string, v: Value, schema: map<string, Value>)
    ensures ValueErrors(name, v, schema) == [] <==> Conforms(v, schema)
    decreases v, 4, 0
  {
    if v.Mapping? {
      ArgumentsConform(v, schema);
      assert Prefixed(name + ".", ArgumentErrors(v, schema)) == [] <==> ArgumentErrors(v, schema) == [];
    }
    if (v.List? || v.Tuple?) && Get(schema, "items").Mapping? {
      ItemsConform(name, v, 0, Get(schema, "items").fields);
    }
  }

  // ----- The procedures -----

  /** Returns the first error of the arguments `v`, if there is one. */
  method ValidateArguments(v: Value, schema: map<string, Value>) returns (error: Option<string>)
    requires v.Mapping?
    ensures error == First(ArgumentErrors(v, schema))
    ensures error == None <==> ConformsObject(v, schema)
    decreases v, 3, 0
  {
    hide Conforms, ConformsObject, SortedKeys, Properties, Required, Closed, ValueErrors;
    ArgumentsConform(v, schema);
    if Properties(schema).None? { return Some("parameters_schema properties must be an object"); }
    if Required(schema).None? { return Some("parameters_schema required must be a list of strings"); }
    var properties, required := Properties(schema).value, Required(schema).value;
    assert required[0..] == required;
    for i := 0 to |required|
      invariant Missing(required, v.fields) == Missing(required[i..], v.fields)
    {
      assert required[i..][0] == required[i] && required[i..][1..] == required[i + 1..];
      if required[i] !in v.fields { return Some("missing required argument: " + required[i]); }
    }
    if Closed(schema) {
      var unknown := SortedKeys(v.fields.Keys - properties.Keys);
      if unknown != [] { return Some("unknown argument: " + unknown[0]); }
    }
    var names := SortedKeys(properties.Keys);
    assert names[0..] == names;
    for i := 0 to |names|
      invariant PropertyErrors(v, names, properties) == PropertyErrors(v, names[i..], properties)
    {
      var n := names[i];
      assert names[i..][0] == n && names[i..][1..] == names[i + 1..];
      if n !in v.fields { continue; }
      if !properties[n].Mapping? { return Some("schema for argument is invalid: " + n); }
      var nested := ValidateValue(n, v.fields[n], properties[n].fields);
      if nested != None { return nested; }
    }
    error := None;
  }

  /** Returns the first error of the value `v`, if there is one. */
  method ValidateValue(name: string, v: Value, schema: map<string, Value>) returns (error: Option<string>)
    ensures error == First(ValueErrors(name, v, schema))
    ensures error == None <==> Conforms(v, schema)
    decreases v, 4, 0
  {
    ValueConforms(name, v, schema);
    var expected := SchemaType(schema);
    if expected == None { return None; }
    if expected.value == "string" {
      if !v.Str? { return Some(BadType(name)); }
    } else if expected.value == "number" {
      if !v.Int? && !v.Float? { return Some(BadType(name)); }
    } else if expected.value == "integer" {
      if !v.Int? { return Some(BadType(name)); }
    } else if expected.value == "boolean" {
      if !v.Bool? { return Some(BadType(name)); }
    } else if expected.value == "object" {
      if !v.Mapping? { return Some(BadType(name)); }
      var nested := ValidateArguments(v, schema);
      if nested != None { return Some(name + "." + nested.value); }
    } else if expected.value == "array" {
      if !v.List? && !v.Tuple? { return Some(BadType(name)); }
      var items := Get(schema, "items");
      if items.Mapping? {
        for i := 0 to |v.items|
          invariant ItemErrors(name, v, 0, items.fields) == ItemErrors(name, v, i, items.fields)
        {
          var nested := ValidateValue(ItemName(name, i), v.items[i], items.fields);
          if nested != None { return nested; }
        }
      }
    }
    error := None;
  }
}
