/**
  Which error the argument validator of kernel/tools/runtime.py reports: the first in a fixed
  order, told by what is wrong with the arguments.
*/
module SchemaErrors {
  import opened Common
  import opened SchemaValidator

  // ----- The order of names -----

  /** `a` comes before `b` by code points: it is a proper beginning, or smaller at the first difference. */
  predicate Before(a: string, b: string) {
    exists k | 0 <= k <= |a| && k <= |b| :: a[..k] == b[..k] && (if k < |a| then k < |b| && a[k] < b[k] else k < |b|)
  }

  lemma BeforeCons(c: char, a: string, b: string)
    ensures Before([c] + a, [c] + b) <==> Before(a, b)
  {
    var x, y := [c] + a, [c] + b;
    if Before(a, b) {
      var k :| 0 <= k <= |a| && k <= |b| && a[..k] == b[..k] && (if k < |a| then k < |b| && a[k] < b[k] else k < |b|);
      assert x[..k + 1] == [c] + a[..k] && y[..k + 1] == [c] + b[..k];
      assert x[..k + 1] == y[..k + 1];
    }
    if Before(x, y) {
      var k :| 0 <= k <= |x| && k <= |y| && x[..k] == y[..k] && (if k < |x| then k < |y| && x[k] < y[k] else k < |y|);
      assert k > 0;
      assert a[..k - 1] == x[1..k] && b[..k - 1] == y[1..k];
      assert x[1..k] == x[..k][1..] && y[1..k] == y[..k][1..];
    }
  }

  lemma HeadsInOrder(a: string, b: string)
    requires a != [] && b != []
    ensures Before(a, b) ==> a[0] <= b[0]
  {
    if Before(a, b) {
      var k :| 0 <= k <= |a| && k <= |b| && a[..k] == b[..k] && (if k < |a| then k < |b| && a[k] < b[k] else k < |b|);
      assert k > 0 ==> a[0] == a[..k][0] == b[..k][0] == b[0];
    }
  }

  lemma {:induction false} LexIsBefore(a: string, b: string)
    ensures LexLeq(a, b) <==> a == b || Before(a, b)
    decreases |a|
  {
    if a == [] {
      assert b != [] ==> a[..0] == b[..0];
    } else if b != [] && a[0] == b[0] {
      LexIsBefore(a[1..], b[1..]);
      assert a == [a[0]] + a[1..] && b == [b[0]] + b[1..];
      BeforeCons(a[0], a[1..], b[1..]);
    } else if b != [] {
      assert a[..0] == b[..0];
      HeadsInOrder(a, b);
    }
  }

  /** The smallest name with a property, for properties given as a set. */
  predicate Smallest(names: set<string>, n: string) {
    n in names && forall m | m in names :: m == n || Before(n, m)
  }

  lemma LeastIsSmallest(names: set<string>)
    requires names != {}
    ensures Smallest(names, Least(names)) && SortedKeys(names)[0] == Least(names)
  {
    var n := Least(names);
    forall m | m in names
      ensures m == n || Before(n, m)
    {
      LexIsBefore(n, m);
    }
  }

  // ----- What is reported -----

  /** The names that a closed schema does not know. */
  function Strangers(fields: map<string, Value>, schema: map<string, Value>): set<string> {
    fields.Keys - Declared(schema).Keys
  }

  /** The named argument has a schema, and that is malformed or not met. */
  ghost predicate Misfit(v: Value, schema: map<string, Value>, name: string)
    requires v.Mapping?
  {
    name in v.fields && name in Declared(schema) &&
    !(Declared(schema)[name].Mapping? && Conforms(v.fields[name], Declared(schema)[name].fields))
  }

  ghost function Misfits(v: Value, schema: map<string, Value>): set<string>
    requires v.Mapping?
  {
    set name | name in v.fields && Misfit(v, schema, name)
  }

  /** What is said of arguments: nothing if they conform; otherwise the first thing that is wrong, in this order. */
  ghost predicate ReportsArguments(v: Value, schema: map<string, Value>, error: Option<string>)
    requires v.Mapping?
    decreases v, 1
  {
    if "properties" in schema && !schema["properties"].None_? && !schema["properties"].Mapping? then
      error == Some("parameters_schema properties must be an object")
    else if !WellFormedParts(schema) then
      error == Some("parameters_schema required must be a list of strings")
    else if !HasRequired(v.fields, schema) then
      var items := schema["required"].items;
      exists i :: 0 <= i < |items| && items[i].Str? && items[i].s !in v.fields && error == Some("missing required argument: " + items[i].s)
                  && forall j | 0 <= j < i :: items[j].Str? && items[j].s in v.fields
    else if !NamesKnown(v.fields, schema) then
      exists n :: Smallest(Strangers(v.fields, schema), n) && error == Some("unknown argument: " + n)
    else if Misfits(v, schema) != {} then
      exists n :: Smallest(Misfits(v, schema), n) && n in v.fields && n in Declared(schema) &&
                  if Declared(schema)[n].Mapping? then ReportsValue(n, v.fields[n], Declared(schema)[n].fields, error) && error.Some?
                  else error == Some("schema for argument is invalid: " + n)
    else error == None
  }

  /** What is said of one value, under the name it is reported with. */
  ghost predicate ReportsValue(name: string, v: Value, schema: map<string, Value>, error: Option<string>)
    decreases v, 2
  {
    if Conforms(v, schema) then error == None
    else if v.Mapping? && schema["type"].s == "object" then
      exists inner :: ReportsArguments(v, schema, Some(inner)) && error == Some(name + "." + inner)
    else if (v.List? || v.Tuple?) && schema["type"].s == "array" then
      exists i :: 0 <= i < |v.items| && ReportsValue(name + "[" + Decimal(i) + "]", v.items[i], schema["items"].fields, error) && error.Some?
                  && forall j | 0 <= j < i :: Conforms(v.items[j], schema["items"].fields)
    else error == Some("invalid type for argument: " + name)
  }

  // ----- The first error -----

  lemma {:induction false} FirstMissing(items: seq<Value>, fields: map<string, Value>) returns (i: nat)
    requires (forall i | 0 <= i < |items| :: items[i].Str?) && exists i | 0 <= i < |items| :: items[i].s !in fields
    ensures i < |items| && items[i].s !in fields && First(Missing(Strings(items), fields)) == Some("missing required argument: " + items[i].s)
    ensures forall j | 0 <= j < i :: items[j].s in fields
    decreases |items|
  {
    i := 0;
    assert Strings(items)[0] == items[0].s && Strings(items)[1..] == Strings(items[1..]);
    if items[0].s in fields {
      var rest := items[1..];
      var k :| 0 <= k < |items| && items[k].s !in fields;
      assert rest[k - 1] == items[k];
      i := FirstMissing(rest, fields);
      i := i + 1;
      assert forall j | 0 < j < |items| :: items[j] == rest[j - 1];
    }
  }

  /** The first misfit among `names`, and what is said of it. */
  ghost predicate ReportsFirst(v: Value, schema: map<string, Value>, names: seq<string>, error: Option<string>)
    requires v.Mapping?
  {
    if forall n | n in names :: !Misfit(v, schema, n) then error == None
    else exists i :: 0 <= i < |names| && FirstMisfit(v, schema, names, i) && ReportsMisfit(v, schema, names[i], error)
  }

  ghost predicate ReportsMisfit(v: Value, schema: map<string, Value>, n: string, error: Option<string>)
    requires v.Mapping?
  {
    && n in v.fields && n in Declared(schema)
    && if Declared(schema)[n].Mapping? then ReportsValue(n, v.fields[n], Declared(schema)[n].fields, error) && error.Some?
       else error == Some("schema for argument is invalid: " + n)
  }

  /** `i` is the place of the first misfit among `names`. */
  ghost predicate FirstMisfit(v: Value, schema: map<string, Value>, names: seq<string>, i: nat)
    requires v.Mapping?
  {
    i < |names| && Misfit(v, schema, names[i]) && forall j | 0 <= j < i :: !Misfit(v, schema, names[j])
  }

  lemma FirstMisfitCons(v: Value, schema: map<string, Value>, names: seq<string>, i: nat)
    requires v.Mapping? && names != [] && !Misfit(v, schema, names[0]) && FirstMisfit(v, schema, names[1..], i)
    ensures FirstMisfit(v, schema, names, i + 1)
  {
    hide Misfit;
    assert names[i + 1] == names[1..][i] && forall j | 0 < j < i + 1 :: names[j] == names[1..][j - 1];
  }

  lemma ReportsFirstCons(v: Value, schema: map<string, Value>, names: seq<string>, error: Option<string>)
    requires v.Mapping? && names != []
    ensures Misfit(v, schema, names[0]) && ReportsMisfit(v, schema, names[0], error) ==> ReportsFirst(v, schema, names, error)
    ensures !Misfit(v, schema, names[0]) && ReportsFirst(v, schema, names[1..], error) ==> ReportsFirst(v, schema, names, error)
  {
    hide Misfit, ReportsMisfit;
    var rest := names[1..];
    assert names == [names[0]] + rest;
    if Misfit(v, schema, names[0]) {
      assert FirstMisfit(v, schema, names, 0);
    } else if ReportsFirst(v, schema, rest, error) && exists n | n in rest :: Misfit(v, schema, n) {
      var i :| 0 <= i < |rest| && FirstMisfit(v, schema, rest, i) && ReportsMisfit(v, schema, rest[i], error);
      FirstMisfitCons(v, schema, names, i);
      assert names[i + 1] == rest[i];
    }
  }

  lemma {:induction false} PropertiesReport(v: Value, names: seq<string>, schema: map<string, Value>)
    requires v.Mapping? && forall n | n in names :: n in Declared(schema)
    ensures ReportsFirst(v, schema, names, First(PropertyErrors(v, names, Declared(schema))))
    decreases v, 2, |names|
  {
    hide ReportsFirst, ReportsValue, ValueErrors, Conforms;
    if names == [] {
      NothingReported(v, schema);
    } else {
      var n, properties := names[0], Declared(schema);
      PropertiesReport(v, names[1..], schema);
      if n in v.fields && properties[n].Mapping? {
        ValueReported(n, v.fields[n], properties[n].fields);
        ValueConforms(n, v.fields[n], properties[n].fields);
      }
      ReportsFirstCons(v, schema, names, First(PropertyErrors(v, names, properties)));
    }
  }

  lemma NothingReported(v: Value, schema: map<string, Value>)
    requires v.Mapping?
    ensures ReportsFirst(v, schema, [], None)
  {
  }

  /** Among the names in order, the first misfit is the smallest. */
  lemma FirstIsSmallest(v: Value, schema: map<string, Value>, error: Option<string>)
    requires v.Mapping? && Misfits(v, schema) != {}
    requires ReportsFirst(v, schema, SortedKeys(Declared(schema).Keys), error)
    ensures exists n :: Smallest(Misfits(v, schema), n) && n in v.fields && n in Declared(schema) && ReportsMisfit(v, schema, n, error)
  {
    hide ReportsMisfit, SortedKeys, Declared, Conforms, Before, LexLeq;
    var names := SortedKeys(Declared(schema).Keys);
    KeysAreSorted(Declared(schema).Keys);
    var some :| some in Misfits(v, schema);
    assert some in names;
    var i :| 0 <= i < |names| && FirstMisfit(v, schema, names, i) && ReportsMisfit(v, schema, names[i], error);
    forall m | m in Misfits(v, schema)
      ensures m == names[i] || Before(names[i], m)
    {
      assert m in names;
      var k :| 0 <= k < |names| && names[k] == m;
      if k != i {
        assert i < k && LexLeq(names[i], names[k]) && names[i] != names[k];
        LexIsBefore(names[i], names[k]);
      }
    }
  }

  /** The arguments' first error. */
  lemma {:induction false} ArgumentsReported(v: Value, schema: map<string, Value>)
    requires v.Mapping?
    ensures ReportsArguments(v, schema, First(ArgumentErrors(v, schema)))
    decreases v, 3, 0
  {
    hide Conforms, ReportsValue, ReportsFirst, PropertyErrors, SortedKeys, Before, Missing;
    PartsWellFormed(schema);
    if WellFormedParts(schema) {
      var properties := Declared(schema);
      RequiredThere(schema, v.fields);
      NoneMissing(Required(schema).value, v.fields);
      if !HasRequired(v.fields, schema) {
        var i := FirstMissing(schema["required"].items, v.fields);
      } else {
        NothingLeft(v.fields.Keys, properties.Keys);
        NoneUnknown(v.fields.Keys - properties.Keys);
        if !NamesKnown(v.fields, schema) {
          LeastIsSmallest(Strangers(v.fields, schema));
        } else {
          PropertiesReport(v, SortedKeys(properties.Keys), schema);
          FitsReported(v, schema);
        }
      }
    }
  }

  lemma FitsReported(v: Value, schema: map<string, Value>)
    requires v.Mapping? && WellFormedParts(schema) && HasRequired(v.fields, schema) && NamesKnown(v.fields, schema)
    requires ReportsFirst(v, schema, SortedKeys(Declared(schema).Keys), First(PropertyErrors(v, SortedKeys(Declared(schema).Keys), Declared(schema))))
    ensures ReportsArguments(v, schema, First(PropertyErrors(v, SortedKeys(Declared(schema).Keys), Declared(schema))))
  {
    hide Conforms, ReportsValue, PropertyErrors, SortedKeys, Before, Smallest;
    var error := First(PropertyErrors(v, SortedKeys(Declared(schema).Keys), Declared(schema)));
    if Misfits(v, schema) != {} {
      FirstIsSmallest(v, schema, error);
    } else {
      forall n | n in SortedKeys(Declared(schema).Keys)
        ensures !Misfit(v, schema, n)
      {
        assert n !in Misfits(v, schema);
      }
    }
  }

  lemma {:induction false} ItemsReported(name: string, v: Value, from: nat, schema: map<string, Value>) returns (i: nat)
    requires (v.List? || v.Tuple?) && from <= |v.items|
    requires !(forall i | from <= i < |v.items| :: Conforms(v.items[i], schema))
    ensures from <= i < |v.items| && First(ItemErrors(name, v, from, schema)).Some?
    ensures ReportsValue(name + "[" + Decimal(i) + "]", v.items[i], schema, First(ItemErrors(name, v, from, schema)))
    ensures forall j | from <= j < i :: Conforms(v.items[j], schema)
    decreases v, 2, |v.items| - from
  {
    hide Conforms, ReportsValue, ValueErrors, Decimal;
    i := from;
    var at := name + "[" + Decimal(from) + "]";
    ValueReported(at, v.items[from], schema);
    ValueConforms(at, v.items[from], schema);
    assert at == ItemName(name, from);
    if Conforms(v.items[from], schema) {
      i := ItemsReported(name, v, from + 1, schema);
    }
  }

  /** A value's first error. */
  lemma {:induction false} ValueReported(name: string, v: Value, schema: map<string, Value>)
    ensures ReportsValue(name, v, schema, First(ValueErrors(name, v, schema)))
    decreases v, 4, 0
  {
    ValueConforms(name, v, schema);
    if !Conforms(v, schema) {
      hide ReportsArguments, ItemErrors, ArgumentErrors;
      if v.Mapping? && schema["type"].s == "object" {
        ArgumentsConform(v, schema);
        ArgumentsReported(v, schema);
        PrefixedFirst(name + ".", ArgumentErrors(v, schema));
      } else if (v.List? || v.Tuple?) && schema["type"].s == "array" {
        var i := ItemsReported(name, v, 0, schema["items"].fields);
      }
    }
  }

  lemma PrefixedFirst(prefix: string, errors: seq<string>)
    requires errors != []
    ensures First(Prefixed(prefix, errors)) == Some(prefix + errors[0])
  {
  }
}
