/**
  Which requests share a cache key (kernel/llm/cache.py): exactly those that agree, up to what
  the key cannot tell apart, on the fields that it reads.
*/
module LlmKeys {
  import opened Common
  import opened PyValues
  import opened LlmChat

  // ----- Mappings as the key sees them -----

  lemma {:induction false} KeeperFound(order: seq<PyKey>, fields: map<PyKey, PyValue>, text: string)
    ensures text in Texts(order, fields) <==> Keeper(order, fields, text).Some?
    decreases |order|
  {
    if order != [] {
      var front, last := order[..|order| - 1], order[|order| - 1];
      assert order == front + [last];
      KeeperFound(front, fields, text);
    }
  }

  /** The value that is kept under a text. */
  function At(v: PyValue, text: string): PyValue
    requires v.Dict? && Keeper(v.order, v.fields, text).Some?
  {
    v.fields[Keeper(v.order, v.fields, text).value]
  }

  function TextsOf(v: PyValue): set<string>
    requires v.Dict?
    ensures forall t :: t in TextsOf(v) <==> Keeper(v.order, v.fields, t).Some?
  {
    assert forall t :: t in Texts(v.order, v.fields) <==> Keeper(v.order, v.fields, t).Some? by {
      forall t { KeeperFound(v.order, v.fields, t); }
    }
    Texts(v.order, v.fields)
  }

  /** The mapping shows these strings under these texts, and nothing else. */
  predicate Shows(v: PyValue, strings: map<string, string>) {
    v.Dict? && TextsOf(v) == strings.Keys && forall t | t in TextsOf(v) :: At(v, t) == Str(strings[t])
  }

  /** A mapping that leaves the same mark as a value without a JSON form. */
  predicate Passes(v: PyValue, w: PyValue) {
    match w
    case Opaque(moduleName, qualName, _) => Shows(v, map["type" := ClassName(moduleName, qualName)])
    case NonFinite(x) => Shows(v, map["type" := "float", "value" := ShownSpecial(x)])
    case _ => false
  }

  /**
    Equal up to the kind of sequence and the order of a mapping. Unless `strict`, mappings are
    compared by the texts of their keys; instances of one class are all alike; and a mapping
    may pass for a value without a JSON form.
  */
  predicate Alike(v: PyValue, w: PyValue, strict: bool)
    decreases v
  {
    match v
    case Dict(fields, order) =>
      if !w.Dict? then !strict && Passes(v, w)
      else if strict then fields.Keys == w.fields.Keys && forall k | k in fields :: Alike(fields[k], w.fields[k], true)
      else TextsOf(v) == TextsOf(w) && forall t | t in TextsOf(v) :: Alike(At(v, t), At(w, t), false)
    case List(items) => (w.List? || w.Tuple?) && |items| == |w.items| && forall i | 0 <= i < |items| :: Alike(items[i], w.items[i], strict)
    case Tuple(items) => (w.List? || w.Tuple?) && |items| == |w.items| && forall i | 0 <= i < |items| :: Alike(items[i], w.items[i], strict)
    case NonFinite(_) => w == v || (!strict && Passes(w, v))
    case Opaque(moduleName, qualName, _) =>
      if strict then w == v
      else (w.Opaque? && ClassName(w.moduleName, w.qualName) == ClassName(moduleName, qualName)) || Passes(w, v)
    case _ => w == v
  }

  // ----- Canonical forms -----

  lemma StringForm(v: PyValue, s: string)
    ensures Canonical(v) == JStr(s) <==> v == Str(s)
  {
  }

  lemma DictForm(v: PyValue)
    requires v.Dict?
    ensures Canonical(v).JMap? && Canonical(v).fields.Keys == TextsOf(v)
    ensures forall t | t in TextsOf(v) :: Canonical(v).fields[t] == Canonical(At(v, t))
  {
  }

  /** The form of a mapping from strings to strings. */
  function StringsForm(strings: map<string, string>): Json {
    JMap(map t | t in strings :: JStr(strings[t]))
  }

  lemma FormShows(v: PyValue, strings: map<string, string>)
    requires v.Dict? && Canonical(v) == StringsForm(strings)
    ensures Shows(v, strings)
  {
    hide Canonical, TextsOf, At;
    DictForm(v);
    assert StringsForm(strings).fields.Keys == strings.Keys;
    forall t | t in TextsOf(v)
      ensures At(v, t) == Str(strings[t])
    {
      assert Canonical(v).fields[t] == JStr(strings[t]);
      StringForm(At(v, t), strings[t]);
    }
  }

  lemma ShowsForm(v: PyValue, strings: map<string, string>)
    requires Shows(v, strings)
    ensures Canonical(v) == StringsForm(strings)
  {
    hide Canonical, TextsOf, At;
    DictForm(v);
    var a, b := Canonical(v).fields, StringsForm(strings).fields;
    forall t | t in TextsOf(v)
      ensures a[t] == b[t]
    {
      StringForm(At(v, t), strings[t]);
    }
    assert a == b;
  }

  /** A mapping whose form shows only strings. */
  lemma ShowsExactly(v: PyValue, strings: map<string, string>)
    requires v.Dict?
    ensures Canonical(v) == StringsForm(strings) <==> Shows(v, strings)
  {
    hide Canonical, Shows, StringsForm;
    if Canonical(v) == StringsForm(strings) { FormShows(v, strings); }
    if Shows(v, strings) { ShowsForm(v, strings); }
  }

  lemma MarksAreStrings(name: string, x: Special)
    ensures TypeMark(name) == StringsForm(map["type" := name])
    ensures FloatMark(x) == StringsForm(map["type" := "float", "value" := ShownSpecial(x)])
    ensures TypeMark(name) != FloatMark(x)
  {
    var m := map["type" := "float", "value" := ShownSpecial(x)];
    assert map["type" := JStr("float"), "value" := JStr(ShownSpecial(x))] == map t | t in m :: JStr(m[t]);
    assert "value" in FloatMark(x).fields && "value" !in TypeMark(name).fields;
  }

  /** What a mapping shares its form with, other than mappings. */
  lemma PassesExactly(v: PyValue, w: PyValue)
    requires v.Dict? && !w.Dict?
    ensures Canonical(v) == Canonical(w) <==> Passes(v, w)
  {
    hide TextsOf, Shows, StringsForm, TypeMark, FloatMark;
    DictForm(v);
    match w
    case Opaque(moduleName, qualName, _) =>
      MarksAreStrings(ClassName(moduleName, qualName), Infinity);
      ShowsExactly(v, map["type" := ClassName(moduleName, qualName)]);
    case NonFinite(x) =>
      MarksAreStrings("", x);
      ShowsExactly(v, map["type" := "float", "value" := ShownSpecial(x)]);
    case _ =>
  }

  lemma DictsSame(v: PyValue, w: PyValue)
    requires v.Dict? && w.Dict?
    ensures Canonical(v) == Canonical(w) <==>
              TextsOf(v) == TextsOf(w) && forall t | t in TextsOf(v) :: Canonical(At(v, t)) == Canonical(At(w, t))
  {
    DictForm(v);
    DictForm(w);
    hide Canonical, TextsOf;
    var a, b := Canonical(v).fields, Canonical(w).fields;
    if TextsOf(v) == TextsOf(w) && forall t | t in TextsOf(v) :: Canonical(At(v, t)) == Canonical(At(w, t)) {
      assert a == b;
    }
  }

  lemma SequencesSame(v: PyValue, w: PyValue)
    requires (v.List? || v.Tuple?) && (w.List? || w.Tuple?)
    ensures Canonical(v) == Canonical(w) <==>
              |v.items| == |w.items| && forall i | 0 <= i < |v.items| :: Canonical(v.items[i]) == Canonical(w.items[i])
  {
    var a, b := Canonical(v).items, Canonical(w).items;
    assert |a| == |v.items| && forall i | 0 <= i < |a| :: a[i] == Canonical(v.items[i]);
    assert |b| == |w.items| && forall i | 0 <= i < |b| :: b[i] == Canonical(w.items[i]);
    assert Canonical(v) == JList(a) && Canonical(w) == JList(b);
    if |a| == |b| && forall i | 0 <= i < |a| :: Canonical(v.items[i]) == Canonical(w.items[i]) {
      assert a == b;
    }
  }

  lemma SpecialsDiffer(x: Special, y: Special)
    ensures FloatMark(x) == FloatMark(y) <==> x == y
  {
    assert FloatMark(x).fields["value"] == JStr(ShownSpecial(x)) && FloatMark(y).fields["value"] == JStr(ShownSpecial(y));
    assert |"inf"| == 3 && |"-inf"| == 4 && "inf"[0] != "nan"[0];
  }

  lemma MarksSame(a: string, b: string)
    ensures TypeMark(a) == TypeMark(b) <==> a == b
  {
    assert TypeMark(a).fields["type"] == JStr(a) && TypeMark(b).fields["type"] == JStr(b);
  }

  /** Values without a JSON form, and the others that are no mappings. */
  lemma LeavesSame(v: PyValue, w: PyValue)
    requires !v.Dict? && !w.Dict? && !((v.List? || v.Tuple?) && (w.List? || w.Tuple?))
    ensures Canonical(v) == Canonical(w) <==> Alike(v, w, false)
  {
    if v.NonFinite? && w.NonFinite? {
      SpecialsDiffer(v.x, w.x);
    } else if v.Opaque? && w.Opaque? {
      MarksSame(ClassName(v.moduleName, v.qualName), ClassName(w.moduleName, w.qualName));
    } else if v.Opaque? && w.NonFinite? {
      MarksAreStrings(ClassName(v.moduleName, v.qualName), w.x);
    } else if v.NonFinite? && w.Opaque? {
      MarksAreStrings(ClassName(w.moduleName, w.qualName), v.x);
    }
  }

  /** Two values have the same form exactly when they are alike. */
  lemma {:induction false} CanonicalSame(v: PyValue, w: PyValue)
    ensures Canonical(v) == Canonical(w) <==> Alike(v, w, false)
    decreases v
  {
    hide Canonical;
    if v.Dict? && w.Dict? {
      DictsSame(v, w);
      if TextsOf(v) == TextsOf(w) {
        forall t | t in TextsOf(v)
          ensures Canonical(At(v, t)) == Canonical(At(w, t)) <==> Alike(At(v, t), At(w, t), false)
        {
          CanonicalSame(At(v, t), At(w, t));
        }
      }
    } else if v.Dict? {
      PassesExactly(v, w);
    } else if w.Dict? {
      PassesExactly(w, v);
    } else if (v.List? || v.Tuple?) && (w.List? || w.Tuple?) {
      SequencesSame(v, w);
      if |v.items| == |w.items| {
        forall i | 0 <= i < |v.items|
          ensures Canonical(v.items[i]) == Canonical(w.items[i]) <==> Alike(v.items[i], w.items[i], false)
        {
          CanonicalSame(v.items[i], w.items[i]);
        }
      }
    } else {
      LeavesSame(v, w);
    }
  }

  // ----- Which values their form determines -----

  /** The keys of a mapping are listed in their order, each once. */
  predicate WellFormed(v: PyValue)
    decreases v
  {
    match v
    case Dict(fields, order) =>
      && (forall k | k in order :: k in fields) && (forall k | k in fields :: k in order)
      && (forall i, j | 0 <= i < j < |order| :: order[i] != order[j]) && forall k | k in fields :: WellFormed(fields[k])
    case List(items) => forall i | 0 <= i < |items| :: WellFormed(items[i])
    case Tuple(items) => forall i | 0 <= i < |items| :: WellFormed(items[i])
    case _ => true
  }

  /** All keys of mappings are strings. */
  predicate TextKeyed(v: PyValue)
    decreases v
  {
    match v
    case Dict(fields, _) => (forall k | k in fields :: k.Text?) && forall k | k in fields :: TextKeyed(fields[k])
    case List(items) => forall i | 0 <= i < |items| :: TextKeyed(items[i])
    case Tuple(items) => forall i | 0 <= i < |items| :: TextKeyed(items[i])
    case _ => true
  }

  /** The mapping passes for an instance of some class. */
  predicate ClassMark(v: PyValue)
    requires v.Dict?
  {
    v.fields.Keys == {Text("type")} && v.fields[Text("type")].Str? && '.' in v.fields[Text("type")].s
  }

  /** The mapping passes for a float that is not finite. */
  predicate SpecialMark(v: PyValue)
    requires v.Dict?
  {
    && v.fields.Keys == {Text("type"), Text("value")} && v.fields[Text("type")] == Str("float")
    && v.fields[Text("value")] in [Str("inf"), Str("-inf"), Str("nan")]
  }

  /**
    The value holds only what JSON knows: mappings with string keys that pass for nothing else,
    sequences, finite numbers, strings, booleans and None.
  */
  predicate Readable(v: PyValue)
    decreases v
  {
    match v
    case Dict(fields, _) => (forall k | k in fields :: k.Text?) && !ClassMark(v) && !SpecialMark(v) && forall k | k in fields :: Readable(fields[k])
    case List(items) => forall i | 0 <= i < |items| :: Readable(items[i])
    case Tuple(items) => forall i | 0 <= i < |items| :: Readable(items[i])
    case NonFinite(_) => false
    case Opaque(_, _, _) => false
    case _ => true
  }

  lemma {:induction false} KeeperOfText(order: seq<PyKey>, fields: map<PyKey, PyValue>, text: string)
    requires forall k | k in fields :: k.Text?
    ensures Keeper(order, fields, text) == if Text(text) in order && Text(text) in fields then Some(Text(text)) else None
    decreases |order|
  {
    if order != [] {
      var front := order[..|order| - 1];
      assert order == front + [order[|order| - 1]];
      KeeperOfText(front, fields, text);
    }
  }

  /** With string keys the texts are the keys. */
  lemma TextKeys(v: PyValue)
    requires v.Dict? && WellFormed(v) && forall k | k in v.fields :: k.Text?
    ensures forall t :: t in TextsOf(v) <==> Text(t) in v.fields
    ensures forall t | t in TextsOf(v) :: At(v, t) == v.fields[Text(t)]
  {
    forall t { KeeperOfText(v.order, v.fields, t); }
  }

  lemma SameTextKeys(v: PyValue, w: PyValue)
    requires v.Dict? && WellFormed(v) && (forall k | k in v.fields :: k.Text?)
    requires w.Dict? && WellFormed(w) && (forall k | k in w.fields :: k.Text?)
    ensures TextsOf(v) == TextsOf(w) <==> v.fields.Keys == w.fields.Keys
  {
    TextKeys(v);
    TextKeys(w);
    if TextsOf(v) == TextsOf(w) {
      forall k
        ensures k in v.fields <==> k in w.fields
      {
        assert k.Text? ==> (k.text in TextsOf(v) <==> k.text in TextsOf(w));
      }
    }
  }

  /** With string keys, alike mappings agree key by key. */
  lemma DictsAlike(v: PyValue, w: PyValue)
    requires v.Dict? && WellFormed(v) && (forall k | k in v.fields :: k.Text?)
    requires w.Dict? && WellFormed(w) && (forall k | k in w.fields :: k.Text?)
    ensures Alike(v, w, false) <==> v.fields.Keys == w.fields.Keys && forall k | k in v.fields :: Alike(v.fields[k], w.fields[k], false)
  {
    TextKeys(v);
    TextKeys(w);
    SameTextKeys(v, w);
    hide TextsOf;
    if TextsOf(v) == TextsOf(w) {
      if forall t | t in TextsOf(v) :: Alike(At(v, t), At(w, t), false) {
        forall k | k in v.fields
          ensures Alike(v.fields[k], w.fields[k], false)
        {
          assert k.text in TextsOf(v) && Alike(At(v, k.text), At(w, k.text), false);
        }
      }
      if forall k | k in v.fields :: Alike(v.fields[k], w.fields[k], false) {
        forall t | t in TextsOf(v)
          ensures Alike(At(v, t), At(w, t), false)
        {
          assert Text(t) in v.fields;
        }
      }
    }
  }

  /** Every key of `v` is one of these strings, and each of them is a key. */
  predicate HasKeys(v: PyValue, texts: set<string>)
    requires v.Dict?
  {
    (forall k | k in v.fields :: k.Text? && k.text in texts) && forall t | t in texts :: Text(t) in v.fields
  }

  lemma TextsAreKeys(v: PyValue, texts: set<string>)
    requires v.Dict? && WellFormed(v) && forall k | k in v.fields :: k.Text?
    ensures TextsOf(v) == texts <==> HasKeys(v, texts)
  {
    TextKeys(v);
    hide TextsOf, WellFormed, At;
    if TextsOf(v) == texts {
      forall k | k in v.fields
        ensures k.text in texts
      {
        assert Text(k.text) in v.fields;
      }
    }
    if HasKeys(v, texts) {
      forall t
        ensures t in TextsOf(v) <==> t in texts
      {
        assert Text(t) in v.fields ==> Text(t).text in texts;
      }
    }
  }

  /** With string keys, what a mapping shows is what it holds. */
  lemma ShowsFields(v: PyValue, strings: map<string, string>)
    requires v.Dict? && WellFormed(v) && forall k | k in v.fields :: k.Text?
    ensures Shows(v, strings) <==> HasKeys(v, strings.Keys) && forall t | t in strings :: v.fields[Text(t)] == Str(strings[t])
  {
    TextKeys(v);
    TextsAreKeys(v, strings.Keys);
    hide TextsOf, WellFormed, At;
  }

  /** A mapping that passes for something else is one of the reserved ones. */
  lemma PassesForSome(v: PyValue, w: PyValue)
    requires v.Dict? && WellFormed(v) && (forall k | k in v.fields :: k.Text?) && Passes(v, w)
    ensures if w.Opaque? then ClassMark(v) && v.fields[Text("type")].s == ClassName(w.moduleName, w.qualName) else SpecialMark(v)
  {
    hide Shows, WellFormed, ClassName;
    match w
    case Opaque(moduleName, qualName, _) =>
      var m := map["type" := ClassName(moduleName, qualName)];
      ShowsFields(v, m);
      assert v.fields.Keys == {Text("type")};
      DottedName(moduleName, qualName);
    case NonFinite(x) =>
      var m := map["type" := "float", "value" := ShownSpecial(x)];
      ShowsFields(v, m);
      assert v.fields.Keys == {Text("type"), Text("value")};
      assert m["type"] == "float" && m["value"] == ShownSpecial(x);
  }

  lemma DottedName(moduleName: string, qualName: string)
    ensures '.' in ClassName(moduleName, qualName)
  {
    assert ClassName(moduleName, qualName)[|moduleName|] == '.';
  }

  /** A readable value, and a value with string keys: alike only if equal up to the kind of sequence. */
  lemma {:induction false} ReadableIsStrict(v: PyValue, w: PyValue)
    requires Readable(v) && WellFormed(v) && WellFormed(w) && TextKeyed(w)
    ensures Alike(v, w, false) <==> Alike(v, w, true)
    decreases v
  {
    if v.Dict? && w.Dict? {
      DictsAlike(v, w);
      if v.fields.Keys == w.fields.Keys {
        forall k | k in v.fields
          ensures Alike(v.fields[k], w.fields[k], false) <==> Alike(v.fields[k], w.fields[k], true)
        {
          ReadableIsStrict(v.fields[k], w.fields[k]);
        }
      }
    } else if v.Dict? {
      if Passes(v, w) {
        PassesForSome(v, w);
      }
    } else if (v.List? || v.Tuple?) && (w.List? || w.Tuple?) && |v.items| == |w.items| {
      forall i | 0 <= i < |v.items|
        ensures Alike(v.items[i], w.items[i], false) <==> Alike(v.items[i], w.items[i], true)
      {
        ReadableIsStrict(v.items[i], w.items[i]);
      }
    }
  }

  lemma {:induction false} AlikeSelf(v: PyValue, strict: bool)
    ensures Alike(v, v, strict)
    decreases v
  {
    match v
    case Dict(fields, order) =>
      if strict {
        forall k | k in fields { AlikeSelf(fields[k], true); }
      } else {
        forall t | t in TextsOf(v) { AlikeSelf(At(v, t), false); }
      }
    case List(items) => forall i | 0 <= i < |items| { AlikeSelf(items[i], strict); }
    case Tuple(items) => forall i | 0 <= i < |items| { AlikeSelf(items[i], strict); }
    case _ =>
  }

  /** A text with a dot is the name of a class. */
  lemma {:induction false} NamesAClass(s: string) returns (moduleName: string, qualName: string)
    requires '.' in s
    ensures ClassName(moduleName, qualName) == s
  {
    var i :| 0 <= i < |s| && s[i] == '.';
    moduleName, qualName := s[..i], s[i + 1..];
  }

  lemma OneOtherItem(items: seq<PyValue>, i: nat, other: PyValue) returns (w: PyValue)
    requires i < |items| && Alike(items[i], other, false) && !Alike(items[i], other, true)
    ensures w == List(items[i := other]) && Alike(List(items), w, false) && !Alike(List(items), w, true)
    ensures Alike(Tuple(items), w, false) && !Alike(Tuple(items), w, true)
  {
    w := List(items[i := other]);
    forall j | 0 <= j < |items| { AlikeSelf(items[j], false); }
    assert w.items[i] == other;
    hide Passes;
  }

  lemma OneOtherField(v: PyValue, k: PyKey, other: PyValue) returns (w: PyValue)
    requires v.Dict? && WellFormed(v) && TextKeyed(v) && k in v.fields && WellFormed(other) && TextKeyed(other)
    requires Alike(v.fields[k], other, false) && !Alike(v.fields[k], other, true)
    ensures WellFormed(w) && TextKeyed(w) && Alike(v, w, false) && !Alike(v, w, true)
  {
    w := Dict(v.fields[k := other], v.order);
    assert w.fields.Keys == v.fields.Keys && w.fields[k] == other;
    forall j | j in v.fields { AlikeSelf(v.fields[j], false); }
    DictsAlike(v, w);
  }

  /** The reserved mappings, and the values that they pass for. */
  lemma ReservedPasses(v: PyValue) returns (w: PyValue)
    requires v.Dict? && WellFormed(v) && (forall k | k in v.fields :: k.Text?) && (ClassMark(v) || SpecialMark(v))
    ensures WellFormed(w) && TextKeyed(w) && !w.Dict? && Passes(v, w)
  {
    hide Shows, WellFormed, ClassName;
    if ClassMark(v) {
      var m, q := NamesAClass(v.fields[Text("type")].s);
      w := Opaque(m, q, 0);
      TypeOnly(v, m, q);
    } else {
      w := NonFinite(if v.fields[Text("value")] == Str("inf") then Infinity else if v.fields[Text("value")] == Str("-inf") then NegativeInfinity else NotANumber);
      TypeAndValue(v, w.x);
    }
    LeafFormed(w);
  }

  lemma LeafFormed(w: PyValue)
    requires w.Opaque? || w.NonFinite?
    ensures WellFormed(w) && TextKeyed(w)
  {
  }

  lemma TypeOnly(v: PyValue, m: string, q: string)
    requires v.Dict? && WellFormed(v) && v.fields.Keys == {Text("type")} && v.fields[Text("type")] == Str(ClassName(m, q))
    ensures Shows(v, map["type" := ClassName(m, q)])
  {
    hide Shows, WellFormed, ClassName;
    var strings := map["type" := ClassName(m, q)];
    assert HasKeys(v, strings.Keys);
    ShowsFields(v, strings);
  }

  lemma TypeAndValue(v: PyValue, x: Special)
    requires v.Dict? && WellFormed(v) && v.fields.Keys == {Text("type"), Text("value")}
    requires v.fields[Text("type")] == Str("float") && v.fields[Text("value")] == Str(ShownSpecial(x))
    ensures Shows(v, map["type" := "float", "value" := ShownSpecial(x)])
  {
    hide Shows, WellFormed;
    var strings := map["type" := "float", "value" := ShownSpecial(x)];
    assert HasKeys(v, strings.Keys);
    ShowsFields(v, strings);
    assert strings["type"] == "float" && strings["value"] == ShownSpecial(x);
  }

  function ReservedFloat(x: Special): PyValue {
    Dict(map[Text("type") := Str("float"), Text("value") := Str(ShownSpecial(x))], [Text("type"), Text("value")])
  }

  lemma ReservedFloatFormed(x: Special)
    ensures WellFormed(ReservedFloat(x)) && TextKeyed(ReservedFloat(x))
  {
    assert [Text("type"), Text("value")][0] != [Text("type"), Text("value")][1];
  }

  lemma ReservedFloatPasses(x: Special)
    ensures WellFormed(ReservedFloat(x)) && TextKeyed(ReservedFloat(x)) && Passes(ReservedFloat(x), NonFinite(x))
  {
    hide WellFormed, TextKeyed, Shows;
    ReservedFloatFormed(x);
    assert ReservedFloat(x).fields.Keys == {Text("type"), Text("value")};
    TypeAndValue(ReservedFloat(x), x);
  }

  lemma OtherInstance(v: PyValue) returns (w: PyValue)
    requires v.Opaque?
    ensures WellFormed(w) && TextKeyed(w) && Alike(v, w, false) && !Alike(v, w, true)
  {
    w := v.(identity := v.identity + 1);
  }

  lemma FloatAsMapping(v: PyValue) returns (w: PyValue)
    requires v.NonFinite?
    ensures WellFormed(w) && TextKeyed(w) && Alike(v, w, false) && !Alike(v, w, true)
  {
    w := ReservedFloat(v.x);
    ReservedFloatPasses(v.x);
    hide Passes;
  }

  lemma ListFormed(items: seq<PyValue>, i: nat, other: PyValue)
    requires i < |items|
    ensures (forall j | 0 <= j < |items| :: WellFormed(items[j])) && WellFormed(other) ==> WellFormed(List(items[i := other]))
    ensures (forall j | 0 <= j < |items| :: TextKeyed(items[j])) && TextKeyed(other) ==> TextKeyed(List(items[i := other]))
  {
  }

  /** For every value with string keys that is not readable there is another one with the same form. */
  lemma {:induction false} Confusable(v: PyValue) returns (w: PyValue)
    requires WellFormed(v) && TextKeyed(v) && !Readable(v)
    ensures WellFormed(w) && TextKeyed(w) && Alike(v, w, false) && !Alike(v, w, true)
    decreases v
  {
    hide Alike, Passes, ReservedFloat, TextsOf;
    match v
    case Opaque(_, _, _) => w := OtherInstance(v);
    case NonFinite(_) => w := FloatAsMapping(v);
    case List(items) =>
      var i :| 0 <= i < |items| && !Readable(items[i]);
      var other := Confusable(items[i]);
      w := OneOtherItem(items, i, other);
      ListFormed(items, i, other);
    case Tuple(items) =>
      var i :| 0 <= i < |items| && !Readable(items[i]);
      var other := Confusable(items[i]);
      w := OneOtherItem(items, i, other);
      ListFormed(items, i, other);
    case Dict(fields, order) =>
      if ClassMark(v) || SpecialMark(v) {
        w := ReservedPasses(v);
        PassesIsLoose(v, w);
      } else {
        var k :| k in fields && !Readable(fields[k]);
        var other := Confusable(fields[k]);
        w := OneOtherField(v, k, other);
      }
  }

  lemma PassesIsLoose(v: PyValue, w: PyValue)
    requires v.Dict? && !w.Dict? && Passes(v, w)
    ensures Alike(v, w, false) && !Alike(v, w, true)
  {
  }

  /**
    Among values with string keys, the form determines a value, up to the kind of sequence,
    exactly when the value is readable.
  */
  lemma FormDeterminesReadable(v: PyValue)
    requires WellFormed(v) && TextKeyed(v)
    ensures Readable(v) <==> forall w | WellFormed(w) && TextKeyed(w) && Canonical(v) == Canonical(w) :: Alike(v, w, true)
  {
    if Readable(v) {
      forall w | WellFormed(w) && TextKeyed(w) && Canonical(v) == Canonical(w)
        ensures Alike(v, w, true)
      {
        CanonicalSame(v, w);
        ReadableIsStrict(v, w);
      }
    } else {
      var w := Confusable(v);
      CanonicalSame(v, w);
    }
  }

  // ----- Without a restriction on keys -----

  /** A readable value without a mapping that has keys. */
  predicate Keyless(v: PyValue)
    decreases v
  {
    match v
    case Dict(fields, _) => fields == map[]
    case List(items) => forall i | 0 <= i < |items| :: Keyless(items[i])
    case Tuple(items) => forall i | 0 <= i < |items| :: Keyless(items[i])
    case NonFinite(_) => false
    case Opaque(_, _, _) => false
    case _ => true
  }

  lemma NoTexts(v: PyValue)
    requires v.Dict? && WellFormed(v)
    ensures TextsOf(v) == {} <==> v.fields == map[]
  {
    if v.fields != map[] {
      var k :| k in v.fields;
      assert Shown(k) in Texts(v.order, v.fields);
      KeeperFound(v.order, v.fields, Shown(k));
    }
  }

  lemma {:induction false} KeylessIsStrict(v: PyValue, w: PyValue)
    requires Keyless(v) && WellFormed(v) && WellFormed(w)
    ensures Alike(v, w, false) <==> Alike(v, w, true)
    decreases v
  {
    if v.Dict? {
      NoTexts(v);
      if w.Dict? {
        NoTexts(w);
      } else if Passes(v, w) {
        assert "type" in TextsOf(v);
      }
      hide TextsOf;
    } else if (v.List? || v.Tuple?) && (w.List? || w.Tuple?) && |v.items| == |w.items| {
      forall i | 0 <= i < |v.items|
        ensures Alike(v.items[i], w.items[i], false) <==> Alike(v.items[i], w.items[i], true)
      {
        KeylessIsStrict(v.items[i], w.items[i]);
      }
    }
  }

  /** An identity that no key in the list has. */
  function FreshIdentity(order: seq<PyKey>): (n: nat)
    ensures forall k | k in order && k.Other? :: k.identity < n
  {
    if order == [] then 0
    else
      var rest := FreshIdentity(order[1..]);
      if order[0].Other? && order[0].identity >= rest then order[0].identity + 1 else rest
  }

  /** An earlier key with a text that a later one has too does not show. */
  lemma {:induction false} KeeperHides(first: PyKey, order: seq<PyKey>, fields: map<PyKey, PyValue>, value: PyValue, text: string)
    requires first !in order && first !in fields && exists k :: k in order && k in fields && Shown(k) == Shown(first)
    ensures Keeper([first] + order, fields[first := value], text) == Keeper(order, fields, text)
    decreases |order|
  {
    KeeperPrefix(first, order, fields, value, text);
    if Shown(first) == text {
      var k :| k in order && k in fields && Shown(k) == text;
      assert text in Texts(order, fields);
      KeeperFound(order, fields, text);
    }
  }

  lemma {:induction false} KeeperPrefix(first: PyKey, order: seq<PyKey>, fields: map<PyKey, PyValue>, value: PyValue, text: string)
    requires first !in order && first !in fields
    ensures Keeper([first] + order, fields[first := value], text)
         == if Keeper(order, fields, text).Some? then Keeper(order, fields, text) else if Shown(first) == text then Some(first) else None
    decreases |order|
  {
    var all := [first] + order;
    if order != [] {
      var front := order[..|order| - 1];
      assert all[..|all| - 1] == [first] + front && all[|all| - 1] == order[|order| - 1];
      KeeperPrefix(first, front, fields, value, text);
    } else {
      assert all[..0] == [];
    }
  }

  /** Every mapping with a key shares its form with one that has another key of the same text in front. */
  lemma HiddenKey(v: PyValue) returns (w: PyValue)
    requires v.Dict? && WellFormed(v) && v.fields != map[]
    ensures WellFormed(w) && Alike(v, w, false) && !Alike(v, w, true)
  {
    var k :| k in v.fields;
    var first := Other(FreshIdentity(v.order), Shown(k));
    w := Dict(v.fields[first := None_], [first] + v.order);
    assert first in w.fields && first !in v.fields;
    HiddenWellFormed(v, w, first);
    forall t
      ensures Keeper(w.order, w.fields, t) == Keeper(v.order, v.fields, t)
    {
      KeeperHides(first, v.order, v.fields, None_, t);
    }
    forall t | t in TextsOf(v) { AlikeSelf(At(v, t), false); }
    assert TextsOf(v) == TextsOf(w);
  }

  lemma HiddenWellFormed(v: PyValue, w: PyValue, first: PyKey)
    requires v.Dict? && WellFormed(v) && first !in v.fields && w == Dict(v.fields[first := None_], [first] + v.order)
    ensures WellFormed(w)
  {
    forall i, j | 0 <= i < j < |w.order|
      ensures w.order[i] != w.order[j]
    {
      assert w.order[j] == v.order[j - 1];
    }
  }

  lemma {:induction false} ConfusableByKeys(v: PyValue) returns (w: PyValue)
    requires WellFormed(v) && !Keyless(v)
    ensures WellFormed(w) && Alike(v, w, false) && !Alike(v, w, true)
    decreases v
  {
    hide Alike, Passes, ReservedFloat, TextsOf;
    match v
    case Opaque(_, _, _) => w := OtherInstance(v);
    case NonFinite(_) => w := FloatAsMapping(v);
    case List(items) =>
      var i :| 0 <= i < |items| && !Keyless(items[i]);
      var other := ConfusableByKeys(items[i]);
      w := OneOtherItem(items, i, other);
      ListFormed(items, i, other);
    case Tuple(items) =>
      var i :| 0 <= i < |items| && !Keyless(items[i]);
      var other := ConfusableByKeys(items[i]);
      w := OneOtherItem(items, i, other);
      ListFormed(items, i, other);
    case Dict(_, _) => w := HiddenKey(v);
  }

  /**
    Among all values, the form determines a value, up to the kind of sequence, exactly when it
    is readable and contains no mapping with a key: the text of a key does not tell its kind.
  */
  lemma FormDeterminesValue(v: PyValue)
    requires WellFormed(v)
    ensures Keyless(v) <==> forall w | WellFormed(w) && Canonical(v) == Canonical(w) :: Alike(v, w, true)
  {
    if Keyless(v) {
      forall w | WellFormed(w) && Canonical(v) == Canonical(w)
        ensures Alike(v, w, true)
      {
        CanonicalSame(v, w);
        KeylessIsStrict(v, w);
      }
    } else {
      var w := ConfusableByKeys(v);
      CanonicalSame(v, w);
    }
  }

  // ----- What the key reads of a message -----

  /** `text` is the value, if that is a string that is not empty. */
  predicate TextOf(v: PyValue, text: Option<string>) {
    text == if v.Str? && v.s != "" then Some(v.s) else None
  }

  /** `v` is what the mapping `x` has under the name; None if there is nothing. */
  predicate Has(x: PyValue, name: string, v: PyValue) {
    if x.Dict? && Text(name) in x.fields then v == x.fields[Text(name)] else v == None_
  }

  /** Of a tool call the key keeps the identifier, the name and the arguments, if they are a mapping. */
  ghost predicate CallRead(x: PyValue, k: CallKey) {
    && (exists v :: Has(x, "id", v) && TextOf(v, k.id))
    && (exists v :: Has(x, "name", v) && TextOf(v, k.name))
    && exists v :: Has(x, "arguments", v) && k.arguments == if v.Dict? then Some(Canonical(v)) else None
  }

  lemma CallReads(x: PyValue)
    ensures CallRead(x, CallKeyOf(x))
  {
    assert Has(x, "id", Field(x, "id")) && Has(x, "name", Field(x, "name")) && Has(x, "arguments", Field(x, "arguments"));
    hide Canonical;
  }

  lemma {:induction false} CallsRead(calls: seq<PyValue>)
    ensures |CallKeys(calls)| == |calls| && forall i | 0 <= i < |calls| :: CallRead(calls[i], CallKeys(calls)[i])
    decreases |calls|
  {
    hide CallRead, CallKeyOf;
    if calls != [] {
      CallReads(calls[0]);
      CallsRead(calls[1..]);
    }
  }

  /**
    Of a message the key keeps the role, the content, the identifier of the call that it
    answers, and its tool calls in order, if they are a list or a tuple. A mapping in their
    place counts as calls without any field, anything else as no calls.
  */
  lemma MessageReads(m: ChatMessage)
    ensures var k := MessageKeyOf(m);
            && k.role == m.role && k.content == m.content
            && TextOf(if "tool_call_id" in m.metadata then m.metadata["tool_call_id"] else None_, k.callId)
            && var calls := if "tool_calls" in m.metadata then m.metadata["tool_calls"] else None_;
               && (k.calls.Some? <==> calls.List? || calls.Tuple? || calls.Dict?)
               && (calls.List? || calls.Tuple? ==> |k.calls.value| == |calls.items|)
               && (calls.List? || calls.Tuple? ==> forall i | 0 <= i < |calls.items| :: CallRead(calls.items[i], k.calls.value[i]))
               && (calls.Dict? ==> |k.calls.value| == |calls.fields|)
               && (calls.Dict? ==> forall i | 0 <= i < |k.calls.value| :: k.calls.value[i] == CallKey(None, None, None))
  {
    hide CallRead, CallKeys;
    var calls := Iterated(Get(m.metadata, "tool_calls"));
    if calls.Some? {
      CallsRead(calls.value);
      forall i | 0 <= i < |calls.value| && calls.value[i] == Str("")
        ensures CallKeys(calls.value)[i] == CallKey(None, None, None)
      {
        NoFields(CallKeys(calls.value)[i]);
      }
    }
  }

  lemma NoFields(k: CallKey)
    requires CallRead(Str(""), k)
    ensures k == CallKey(None, None, None)
  {
  }

  // ----- Requests -----

  /** The same identifier and name of a tool call, and arguments that are alike. */
  predicate CallAlike(x: PyValue, y: PyValue, strict: bool) {
    && Nonempty(Field(x, "id")) == Nonempty(Field(y, "id")) && Nonempty(Field(x, "name")) == Nonempty(Field(y, "name"))
    && (Field(x, "arguments").Dict? <==> Field(y, "arguments").Dict?)
    && (Field(x, "arguments").Dict? ==> Alike(Field(x, "arguments"), Field(y, "arguments"), strict))
  }

  predicate CallsAlike(xs: seq<PyValue>, ys: seq<PyValue>, strict: bool) {
    |xs| == |ys| && forall i | 0 <= i < |xs| :: CallAlike(xs[i], ys[i], strict)
  }

  predicate MessageAlike(m: ChatMessage, n: ChatMessage, strict: bool) {
    var c, d := Iterated(Get(m.metadata, "tool_calls")), Iterated(Get(n.metadata, "tool_calls"));
    && m.role == n.role && m.content == n.content
    && Nonempty(Get(m.metadata, "tool_call_id")) == Nonempty(Get(n.metadata, "tool_call_id"))
    && (c.Some? <==> d.Some?) && (c.Some? ==> CallsAlike(c.value, d.value, strict))
  }

  predicate MessagesAlike(ms: seq<ChatMessage>, ns: seq<ChatMessage>, strict: bool) {
    |ms| == |ns| && forall i | 0 <= i < |ms| :: MessageAlike(ms[i], ns[i], strict)
  }

  predicate ToolAlike(t: ToolSpec, u: ToolSpec, strict: bool) {
    t.name == u.name && t.description == u.description && Alike(t.schema, u.schema, strict)
  }

  predicate ToolsAlike(ts: seq<ToolSpec>, us: seq<ToolSpec>, strict: bool) {
    |ts| == |us| && forall i | 0 <= i < |ts| :: ToolAlike(ts[i], us[i], strict)
  }

  /** Two requests that agree on everything that the key reads. */
  predicate RequestAlike(a: Request, b: Request, strict: bool) {
    && a.model == b.model && MessagesAlike(a.messages, b.messages, strict)
    && Alike(a.temperature, b.temperature, strict)
    && Alike(RequestOption(a.metadata, "max_tokens"), RequestOption(b.metadata, "max_tokens"), strict)
    && ToolsAlike(a.tools, b.tools, strict) && Alike(a.toolChoice, b.toolChoice, strict)
  }

  lemma CallKeySame(x: PyValue, y: PyValue)
    ensures CallKeyOf(x) == CallKeyOf(y) <==> CallAlike(x, y, false)
  {
    CanonicalSame(Field(x, "arguments"), Field(y, "arguments"));
    hide Canonical, Alike;
  }

  lemma {:induction false} CallKeysSame(xs: seq<PyValue>, ys: seq<PyValue>)
    ensures CallKeys(xs) == CallKeys(ys) <==> CallsAlike(xs, ys, false)
    decreases |xs|
  {
    hide CallAlike, CallKeyOf;
    if xs != [] && ys != [] {
      var k, l := CallKeys(xs[1..]), CallKeys(ys[1..]);
      CallKeySame(xs[0], ys[0]);
      CallKeysSame(xs[1..], ys[1..]);
      assert ([CallKeyOf(xs[0])] + k)[1..] == k && ([CallKeyOf(ys[0])] + l)[1..] == l;
      assert CallsAlike(xs, ys, false) <==> CallAlike(xs[0], ys[0], false) && CallsAlike(xs[1..], ys[1..], false) by {
        Split(xs, ys);
      }
    }
  }

  lemma Split(xs: seq<PyValue>, ys: seq<PyValue>)
    requires xs != [] && ys != []
    ensures CallsAlike(xs, ys, false) <==> CallAlike(xs[0], ys[0], false) && CallsAlike(xs[1..], ys[1..], false)
  {
    hide CallAlike;
    assert |xs| == |ys| ==> forall i | 1 <= i < |xs| :: xs[i] == xs[1..][i - 1] && ys[i] == ys[1..][i - 1];
  }

  lemma MessageKeySame(m: ChatMessage, n: ChatMessage)
    ensures MessageKeyOf(m) == MessageKeyOf(n) <==> MessageAlike(m, n, false)
  {
    hide CallKeys, CallsAlike;
    var c, d := Iterated(Get(m.metadata, "tool_calls")), Iterated(Get(n.metadata, "tool_calls"));
    if c.Some? && d.Some? {
      CallKeysSame(c.value, d.value);
    }
  }

  lemma {:induction false} MessageKeysSame(ms: seq<ChatMessage>, ns: seq<ChatMessage>)
    ensures MessageKeys(ms) == MessageKeys(ns) <==> MessagesAlike(ms, ns, false)
    decreases |ms|
  {
    hide MessageAlike, MessageKeyOf;
    if ms != [] && ns != [] {
      var k, l := MessageKeys(ms[1..]), MessageKeys(ns[1..]);
      MessageKeySame(ms[0], ns[0]);
      MessageKeysSame(ms[1..], ns[1..]);
      assert ([MessageKeyOf(ms[0])] + k)[1..] == k && ([MessageKeyOf(ns[0])] + l)[1..] == l;
      assert |ms| == |ns| ==> forall i | 1 <= i < |ms| :: ms[i] == ms[1..][i - 1] && ns[i] == ns[1..][i - 1];
    }
  }

  lemma {:induction false} ToolKeysSame(ts: seq<ToolSpec>, us: seq<ToolSpec>)
    ensures ToolKeys(ts) == ToolKeys(us) <==> ToolsAlike(ts, us, false)
    decreases |ts|
  {
    hide Canonical, Alike;
    if ts != [] && us != [] {
      var k, l := ToolKeys(ts[1..]), ToolKeys(us[1..]);
      CanonicalSame(ts[0].schema, us[0].schema);
      ToolKeysSame(ts[1..], us[1..]);
      assert ToolKeys(ts)[1..] == k && ToolKeys(us)[1..] == l;
      assert |ts| == |us| ==> forall i | 1 <= i < |ts| :: ts[i] == ts[1..][i - 1] && us[i] == us[1..][i - 1];
    }
  }

  /** Two requests share a key exactly when they are for one provider and alike in all that the key reads. */
  lemma KeyAgreesExactly(a: Request, p: string, b: Request, q: string)
    ensures KeyOf(a, p) == KeyOf(b, q) <==> p == q && RequestAlike(a, b, false)
  {
    hide Canonical, Alike, MessageKeys, ToolKeys, MessagesAlike, ToolsAlike, RequestOption;
    MessageKeysSame(a.messages, b.messages);
    ToolKeysSame(a.tools, b.tools);
    CanonicalSame(a.temperature, b.temperature);
    CanonicalSame(RequestOption(a.metadata, "max_tokens"), RequestOption(b.metadata, "max_tokens"));
    CanonicalSame(a.toolChoice, b.toolChoice);
  }

  /** A value with string keys. */
  predicate Textual(v: PyValue) {
    WellFormed(v) && TextKeyed(v)
  }

  predicate TextualCall(x: PyValue) {
    Field(x, "arguments").Dict? ==> Textual(Field(x, "arguments"))
  }

  predicate TextualMessage(m: ChatMessage) {
    var c := Iterated(Get(m.metadata, "tool_calls"));
    c.Some? ==> forall i | 0 <= i < |c.value| :: TextualCall(c.value[i])
  }

  /** Every value that the key reads has string keys. */
  predicate TextualRequest(r: Request) {
    && (forall i | 0 <= i < |r.messages| :: TextualMessage(r.messages[i]))
    && (forall i | 0 <= i < |r.tools| :: Textual(r.tools[i].schema))
    && Textual(r.temperature) && Textual(RequestOption(r.metadata, "max_tokens")) && Textual(r.toolChoice)
  }

  predicate ReadableCall(x: PyValue) {
    Field(x, "arguments").Dict? ==> Readable(Field(x, "arguments"))
  }

  predicate ReadableMessage(m: ChatMessage) {
    var c := Iterated(Get(m.metadata, "tool_calls"));
    c.Some? ==> forall i | 0 <= i < |c.value| :: ReadableCall(c.value[i])
  }

  /** Every value that the key reads is readable. */
  predicate ReadableRequest(r: Request) {
    && (forall i | 0 <= i < |r.messages| :: ReadableMessage(r.messages[i]))
    && (forall i | 0 <= i < |r.tools| :: Readable(r.tools[i].schema))
    && Readable(r.temperature) && Readable(RequestOption(r.metadata, "max_tokens")) && Readable(r.toolChoice)
  }

  lemma ReadableCallIsStrict(x: PyValue, y: PyValue)
    requires TextualCall(x) && ReadableCall(x) && TextualCall(y)
    ensures CallAlike(x, y, false) <==> CallAlike(x, y, true)
  {
    hide Readable, Alike, WellFormed, TextKeyed;
    if Field(x, "arguments").Dict? && Field(y, "arguments").Dict? {
      ReadableIsStrict(Field(x, "arguments"), Field(y, "arguments"));
    }
  }

  lemma ReadableMessageIsStrict(m: ChatMessage, n: ChatMessage)
    requires TextualMessage(m) && ReadableMessage(m) && TextualMessage(n)
    ensures MessageAlike(m, n, false) <==> MessageAlike(m, n, true)
  {
    hide ReadableCall, TextualCall, CallAlike;
    var c, d := Iterated(Get(m.metadata, "tool_calls")), Iterated(Get(n.metadata, "tool_calls"));
    if c.Some? && d.Some? && |c.value| == |d.value| {
      forall i | 0 <= i < |c.value|
        ensures CallAlike(c.value[i], d.value[i], false) <==> CallAlike(c.value[i], d.value[i], true)
      {
        assert ReadableCall(c.value[i]) && TextualCall(c.value[i]) && TextualCall(d.value[i]);
        ReadableCallIsStrict(c.value[i], d.value[i]);
      }
    }
  }

  /**
    A readable request shares its key, among requests with string keys, exactly with those that
    agree with it up to the kinds of sequences and the order of mappings.
  */
  lemma KeyTellsApart(a: Request, p: string, b: Request, q: string)
    requires TextualRequest(a) && ReadableRequest(a) && TextualRequest(b)
    ensures KeyOf(a, p) == KeyOf(b, q) <==> p == q && RequestAlike(a, b, true)
  {
    hide Readable, Alike, KeyOf, RequestOption, MessageAlike, ReadableMessage, TextualMessage, WellFormed, TextKeyed;
    KeyAgreesExactly(a, p, b, q);
    if |a.messages| == |b.messages| {
      forall i | 0 <= i < |a.messages|
        ensures MessageAlike(a.messages[i], b.messages[i], false) <==> MessageAlike(a.messages[i], b.messages[i], true)
      {
        ReadableMessageIsStrict(a.messages[i], b.messages[i]);
      }
    }
    if |a.tools| == |b.tools| {
      forall i | 0 <= i < |a.tools|
        ensures ToolAlike(a.tools[i], b.tools[i], false) <==> ToolAlike(a.tools[i], b.tools[i], true)
      {
        ReadableIsStrict(a.tools[i].schema, b.tools[i].schema);
      }
    }
    ReadableIsStrict(a.temperature, b.temperature);
    ReadableIsStrict(RequestOption(a.metadata, "max_tokens"), RequestOption(b.metadata, "max_tokens"));
    ReadableIsStrict(a.toolChoice, b.toolChoice);
  }

  // ----- Requests that the key confuses -----

  predicate Blank(s: string) {
    forall c | c in s :: c in " \t\n\r"
  }

  /** What the constructor of a request accepts. */
  predicate Buildable(r: Request) {
    && r.messages != [] && !Blank(r.model)
    && (r.toolChoice.None_? || r.toolChoice.Dict? || (r.toolChoice.Str? && !Blank(r.toolChoice.s)))
    && (r.timeout.Some? ==> r.timeout.value > 0.0)
  }

  /** Tool choices that are mappings with one form make two requests that can be built and share a key. */
  lemma OneForm(r: Request, v: PyValue, w: PyValue, provider: string)
    requires Buildable(r) && v.Dict? && w.Dict? && Alike(v, w, false) && !Alike(v, w, true)
    ensures Confused(r.(toolChoice := v), r.(toolChoice := w), provider)
  {
    CanonicalSame(v, w);
  }

  /** Two different requests that can be built and share a key. */
  predicate Confused(a: Request, b: Request, provider: string) {
    Buildable(a) && Buildable(b) && KeyOf(a, provider) == KeyOf(b, provider) && !RequestAlike(a, b, true)
  }

  function One(k: PyKey, v: PyValue): PyValue {
    Dict(map[k := v], [k])
  }

  lemma OneText(k: PyKey, v: PyValue)
    ensures TextsOf(One(k, v)) == {Shown(k)} && At(One(k, v), Shown(k)) == v && WellFormed(One(k, v)) == WellFormed(v)
  {
    assert [k][..0] == [];
  }

  lemma OneAlike(k: PyKey, v: PyValue, w: PyValue)
    ensures Alike(One(k, v), One(k, w), false) <==> Alike(v, w, false)
    ensures Alike(One(k, v), One(k, w), true) <==> Alike(v, w, true)
  {
    OneLoosely(k, v, w);
    OneStrictly(k, v, w);
    hide Alike;
  }

  lemma OneLoosely(k: PyKey, v: PyValue, w: PyValue)
    ensures Alike(One(k, v), One(k, w), false) <==> Alike(v, w, false)
  {
    hide TextsOf, One, Passes, WellFormed, At;
    var a, b := One(k, v), One(k, w);
    OneText(k, v);
    OneText(k, w);
    OneIsDict(k, v);
    OneIsDict(k, w);
    assert Alike(a, b, false) <==> forall t | t in TextsOf(a) :: Alike(At(a, t), At(b, t), false);
  }

  lemma OneIsDict(k: PyKey, v: PyValue)
    ensures One(k, v).Dict? && One(k, v).fields == map[k := v]
  {
  }

  lemma OneStrictly(k: PyKey, v: PyValue, w: PyValue)
    ensures Alike(One(k, v), One(k, w), true) <==> Alike(v, w, true)
  {
    hide TextsOf, One, Passes, At;
    OneIsDict(k, v);
    OneIsDict(k, w);
    assert One(k, v).fields[k] == v && One(k, w).fields[k] == w;
  }

  /** Tool choices that differ in a byte string, or another object of one class. */
  lemma KeyConfusesInstances(r: Request, name: string, moduleName: string, qualName: string, a: nat, b: nat, provider: string)
    requires Buildable(r) && a != b
    ensures var v, w := Opaque(moduleName, qualName, a), Opaque(moduleName, qualName, b);
            Confused(r.(toolChoice := One(Text(name), v)), r.(toolChoice := One(Text(name), w)), provider)
  {
    var v, w := Opaque(moduleName, qualName, a), Opaque(moduleName, qualName, b);
    OneAlike(Text(name), v, w);
    OneForm(r, One(Text(name), v), One(Text(name), w), provider);
  }

  /** A tool choice with a key that is no string, and one with the text of that key. */
  lemma KeyConfusesKeys(r: Request, identity: nat, text: string, value: PyValue, provider: string)
    requires Buildable(r)
    ensures Confused(r.(toolChoice := One(Text(text), value)), r.(toolChoice := One(Other(identity, text), value)), provider)
  {
    var v, w := One(Text(text), value), One(Other(identity, text), value);
    OneText(Text(text), value);
    OneText(Other(identity, text), value);
    AlikeSelf(value, false);
    assert Text(text) in v.fields && Text(text) !in w.fields;
    hide TextsOf;
    OneForm(r, v, w, provider);
  }

  /** A tool choice with an object, and one with the mapping that names the object's class. */
  lemma KeyConfusesClassNames(r: Request, name: string, moduleName: string, qualName: string, identity: nat, provider: string)
    requires Buildable(r)
    ensures var v, w := Opaque(moduleName, qualName, identity), One(Text("type"), Str(ClassName(moduleName, qualName)));
            Confused(r.(toolChoice := One(Text(name), v)), r.(toolChoice := One(Text(name), w)), provider)
  {
    var v, w := Opaque(moduleName, qualName, identity), One(Text("type"), Str(ClassName(moduleName, qualName)));
    OneText(Text("type"), Str(ClassName(moduleName, qualName)));
    hide TextsOf;
    assert TextsOf(w) == map["type" := ClassName(moduleName, qualName)].Keys;
    assert Passes(w, v);
    OneAlike(Text(name), v, w);
    OneForm(r, One(Text(name), v), One(Text(name), w), provider);
  }

  /** A tool choice with a float that is not finite, and one with the mapping that describes it. */
  lemma KeyConfusesFloats(r: Request, name: string, x: Special, provider: string)
    requires Buildable(r)
    ensures Confused(r.(toolChoice := One(Text(name), NonFinite(x))), r.(toolChoice := One(Text(name), ReservedFloat(x))), provider)
  {
    ReservedFloatPasses(x);
    hide Passes;
    OneAlike(Text(name), NonFinite(x), ReservedFloat(x));
    OneForm(r, One(Text(name), NonFinite(x)), One(Text(name), ReservedFloat(x)), provider);
  }
}
