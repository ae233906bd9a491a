/** The canonical output builder: recursive key sorting as a canonical form of nested objects. */
module CanonicalJson {
  import opened StableSort

  /** An object lists its entries in insertion order. */
  datatype Json =
    | Null
    | Bool(truth: bool)
    | Number(value: int)
    | Text(text: string)
    | List(items: seq<Json>)
    | Object(fields: seq<Field>)

  datatype Field = Field(name: string, value: Json)

  function Names(fields: seq<Field>): (r: seq<string>)
    ensures |r| == |fields| && forall i :: 0 <= i < |fields| ==> r[i] == fields[i].name
  {
    if fields == [] then [] else [fields[0].name] + Names(fields[1..])
  }

  /** `obj[name]`. */
  function Lookup(fields: seq<Field>, name: string): (value: Json)
    requires name in Names(fields)
    ensures exists i :: 0 <= i < |fields| && fields[i] == Field(name, value)
  {
    if fields[0].name == name then
      assert fields[0] == Field(name, fields[0].value);
      fields[0].value
    else
      var value := Lookup(fields[1..], name);
      assert exists i :: 0 <= i < |fields[1..]| && fields[1..][i] == Field(name, value);
      assert forall i :: 0 <= i < |fields[1..]| ==> fields[1..][i] == fields[i + 1];
      value
  }

  predicate DistinctNames(fields: seq<Field>) {
    forall i, j :: 0 <= i < j < |fields| ==> fields[i].name != fields[j].name
  }

  /** A dictionary holds each key once, at every depth. */
  predicate WellFormed(j: Json) {
    match j
    case List(items) => forall i :: 0 <= i < |items| ==> WellFormed(items[i])
    case Object(fields) => DistinctNames(fields) && forall i :: 0 <= i < |fields| ==> WellFormed(fields[i].value)
    case _ => true
  }

  function TextKey(name: string): Key {
    Key(0, name, 0)
  }

  /** `sorted(obj.keys())`. */
  function SortedNames(fields: seq<Field>): seq<string> {
    Sort(TextKey, Names(fields))
  }

  lemma SortedNamesAreNames(fields: seq<Field>)
    ensures forall name :: name in SortedNames(fields) <==> name in Names(fields)
  {
    forall name ensures name in SortedNames(fields) <==> name in Names(fields) {
      SortHas(TextKey, Names(fields), name);
    }
  }

  /** `_sort_dict_keys`. */
  function Canonical(j: Json): Json
    decreases j, 1, 0
  {
    match j
    case List(items) => List(CanonicalItems(j, |items|))
    case Object(fields) =>
      SortedNamesAreNames(fields);
      Object(CanonicalFields(j, SortedNames(fields)))
    case _ => j
  }

  function CanonicalItems(j: Json, n: nat): (r: seq<Json>)
    requires j.List? && n <= |j.items|
    ensures |r| == n && forall i :: 0 <= i < n ==> r[i] == Canonical(j.items[i])
    decreases j, 0, n
  {
    if n == 0 then [] else CanonicalItems(j, n - 1) + [Canonical(j.items[n - 1])]
  }

  /** `{k: _sort_dict_keys(obj[k]) for k in names}`. */
  function CanonicalFields(j: Json, names: seq<string>): (r: seq<Field>)
    requires j.Object? && forall i :: 0 <= i < |names| ==> names[i] in Names(j.fields)
    ensures |r| == |names|
    ensures forall i :: 0 <= i < |names| ==> r[i] == Field(names[i], Canonical(Lookup(j.fields, names[i])))
    decreases j, 0, |names|
  {
    if names == [] then []
    else [Field(names[0], Canonical(Lookup(j.fields, names[0])))] + CanonicalFields(j, names[1..])
  }

  /** Python's `==`: lists in order, dictionaries key by key in any order. */
  predicate Equal(a: Json, b: Json)
    decreases a
  {
    match (a, b)
    case (List(xs), List(ys)) => |xs| == |ys| && forall i :: 0 <= i < |xs| ==> Equal(xs[i], ys[i])
    case (Object(xs), Object(ys)) =>
      && (forall i :: 0 <= i < |ys| ==> ys[i].name in Names(xs))
      && forall i :: 0 <= i < |xs| ==> xs[i].name in Names(ys) && Equal(xs[i].value, Lookup(ys, xs[i].name))
    case _ => a == b
  }

  lemma FoundAt(fields: seq<Field>, i: nat)
    requires DistinctNames(fields) && i < |fields|
    ensures fields[i].name in Names(fields) && Lookup(fields, fields[i].name) == fields[i].value
  {
    assert Names(fields)[i] == fields[i].name;
  }

  lemma NamesAreDistinct(fields: seq<Field>)
    requires DistinctNames(fields)
    ensures DistinctKeys(TextKey, Names(fields))
  {
  }

  /** Key order never shows: the sorted names depend on the set of names only. */
  lemma SortedNamesAgree(xs: seq<Field>, ys: seq<Field>)
    requires DistinctNames(xs) && DistinctNames(ys)
    requires forall name :: name in Names(xs) <==> name in Names(ys)
    ensures SortedNames(xs) == SortedNames(ys)
  {
    NamesAreDistinct(xs);
    NamesAreDistinct(ys);
    forall name ensures multiset(Names(xs))[name] == multiset(Names(ys))[name] {
      DistinctOnce(TextKey, Names(xs), name);
      DistinctOnce(TextKey, Names(ys), name);
    }
    assert multiset(Names(xs)) == multiset(Names(ys));
    SortForgetsOrder(TextKey, Names(xs), Names(ys));
  }

  /** Canonical form, one way: equal objects, whatever their key orders at any depth, get the same output. */
  lemma {:induction false} EqualHaveOneForm(a: Json, b: Json)
    requires WellFormed(a) && WellFormed(b) && Equal(a, b)
    ensures Canonical(a) == Canonical(b)
    decreases a
  {
    match (a, b)
    case (List(xs), List(ys)) =>
      forall i | 0 <= i < |xs| ensures Canonical(xs[i]) == Canonical(ys[i]) {
        EqualHaveOneForm(xs[i], ys[i]);
      }
      assert CanonicalItems(a, |xs|) == CanonicalItems(b, |ys|);
    case (Object(xs), Object(ys)) =>
      EqualHaveOneDomain(xs, ys);
      SortedNamesAgree(xs, ys);
      var names := SortedNames(xs);
      SortedNamesAreNames(xs);
      SortedNamesAreNames(ys);
      forall i | 0 <= i < |names| ensures Canonical(Lookup(xs, names[i])) == Canonical(Lookup(ys, names[i])) {
        assert names[i] in names;
        var k, m := EqualFields(xs, ys, names[i]);
        EqualHaveOneForm(xs[k].value, ys[m].value);
      }
      FieldsHaveOneForm(a, b, names);
    case _ =>
  }

  lemma EqualHaveOneDomain(xs: seq<Field>, ys: seq<Field>)
    requires Equal(Object(xs), Object(ys))
    ensures forall name :: name in Names(xs) <==> name in Names(ys)
  {
  }

  lemma EqualFields(xs: seq<Field>, ys: seq<Field>, name: string) returns (k: nat, m: nat)
    requires DistinctNames(xs) && Equal(Object(xs), Object(ys)) && name in Names(xs) && name in Names(ys)
    ensures k < |xs| && xs[k] == Field(name, Lookup(xs, name))
    ensures m < |ys| && ys[m] == Field(name, Lookup(ys, name))
    ensures Equal(xs[k].value, ys[m].value)
  {
    k :| 0 <= k < |xs| && xs[k] == Field(name, Lookup(xs, name));
    m :| 0 <= m < |ys| && ys[m] == Field(name, Lookup(ys, name));
  }

  lemma FieldsHaveOneForm(a: Json, b: Json, names: seq<string>)
    requires a.Object? && b.Object?
    requires forall i :: 0 <= i < |names| ==>
               && names[i] in Names(a.fields) && names[i] in Names(b.fields)
               && Canonical(Lookup(a.fields, names[i])) == Canonical(Lookup(b.fields, names[i]))
    ensures CanonicalFields(a, names) == CanonicalFields(b, names)
  {
  }

  /** The sorted object lists the sorted names and, under each, the form of what was there. */
  lemma FormOfFields(j: Json)
    requires j.Object?
    ensures Canonical(j).Object?
    ensures Names(Canonical(j).fields) == SortedNames(j.fields)
    ensures forall i :: 0 <= i < |SortedNames(j.fields)| ==> FormAt(j, i)
  {
    var names := SortedNames(j.fields);
    SortedNamesAreNames(j.fields);
    assert forall i :: 0 <= i < |names| ==> names[i] in names;
    assert Canonical(j) == Object(CanonicalFields(j, names));
  }

  predicate FormAt(j: Json, i: nat) {
    && j.Object? && Canonical(j).Object?
    && i < |SortedNames(j.fields)| && i < |Canonical(j).fields|
    && SortedNames(j.fields)[i] in Names(j.fields)
    && Canonical(j).fields[i] == Field(SortedNames(j.fields)[i], Canonical(Lookup(j.fields, SortedNames(j.fields)[i])))
  }

  /** The names of an output object come in code point order. */
  lemma NamesAreInOrder(j: Json, i: nat, k: nat)
    requires j.Object? && i < k < |j.fields|
    ensures Canonical(j).Object? && |Canonical(j).fields| == |j.fields|
    ensures TextAtMost(Canonical(j).fields[i].name, Canonical(j).fields[k].name)
  {
    FormOfFields(j);
    SortSorts(TextKey, Names(j.fields));
    SortPermutes(TextKey, Names(j.fields));
    SameLength(SortedNames(j.fields), Names(j.fields));
    assert Names(Canonical(j).fields)[i] == SortedNames(j.fields)[i];
    assert Names(Canonical(j).fields)[k] == SortedNames(j.fields)[k];
    assert AtMost(TextKey(SortedNames(j.fields)[i]), TextKey(SortedNames(j.fields)[k]));
  }

  lemma FormKeepsNamesDistinct(j: Json)
    requires j.Object? && DistinctNames(j.fields)
    ensures DistinctNames(Canonical(j).fields)
    ensures SortedNames(Canonical(j).fields) == SortedNames(j.fields)
  {
    var names := SortedNames(j.fields);
    FormOfFields(j);
    NamesAreDistinct(j.fields);
    SortSorts(TextKey, Names(j.fields));
    SortOfSorted(TextKey, names);
    DistinctKeysMakeDistinctNames(Canonical(j).fields);
  }

  lemma DistinctKeysMakeDistinctNames(fields: seq<Field>)
    requires DistinctKeys(TextKey, Names(fields))
    ensures DistinctNames(fields)
  {
    forall i, k | 0 <= i < k < |fields| ensures fields[i].name != fields[k].name {
      assert TextKey(Names(fields)[i]) != TextKey(Names(fields)[k]);
    }
  }

  /** What the output of an object holds under a name is the form of what the object holds there. */
  lemma FormAtName(j: Json, name: string) returns (i: nat)
    requires j.Object? && name in Names(j.fields)
    ensures i < |SortedNames(j.fields)| && SortedNames(j.fields)[i] == name
    ensures Canonical(j).Object? && i < |Canonical(j).fields|
    ensures Canonical(j).fields[i] == Field(name, Canonical(Lookup(j.fields, name)))
  {
    SortedNamesAreNames(j.fields);
    FormOfFields(j);
    i :| 0 <= i < |SortedNames(j.fields)| && SortedNames(j.fields)[i] == name;
    assert FormAt(j, i);
  }

  lemma OneFormAtName(a: Json, b: Json, name: string)
    requires a.Object? && b.Object? && Canonical(a) == Canonical(b) && name in Names(a.fields)
    ensures name in Names(b.fields) && Canonical(Lookup(a.fields, name)) == Canonical(Lookup(b.fields, name))
  {
    FormOfFields(b);
    var i := FormAtName(a, name);
    assert FormAt(b, i);
    assert Canonical(b).fields[i].name == SortedNames(b.fields)[i];
  }

  /** And back: what has the same output was equal. */
  lemma {:induction false} OneFormMeansEqual(a: Json, b: Json)
    requires WellFormed(a) && WellFormed(b) && Canonical(a) == Canonical(b)
    ensures Equal(a, b)
    decreases a
  {
    match (a, b)
    case (List(xs), List(ys)) =>
      forall i | 0 <= i < |xs| ensures Equal(xs[i], ys[i]) {
        assert CanonicalItems(a, |xs|)[i] == CanonicalItems(b, |ys|)[i];
        OneFormMeansEqual(xs[i], ys[i]);
      }
    case (Object(xs), Object(ys)) =>
      forall i | 0 <= i < |ys| ensures ys[i].name in Names(xs) {
        FoundAt(ys, i);
        OneFormAtName(b, a, ys[i].name);
      }
      forall i | 0 <= i < |xs| ensures xs[i].name in Names(ys) && Equal(xs[i].value, Lookup(ys, xs[i].name)) {
        FoundAt(xs, i);
        OneFormAtName(a, b, xs[i].name);
        var m :| 0 <= m < |ys| && ys[m] == Field(xs[i].name, Lookup(ys, xs[i].name));
        assert WellFormed(ys[m].value);
        OneFormMeansEqual(xs[i].value, Lookup(ys, xs[i].name));
      }
    case _ =>
  }

  /** The canonical form decides equality. */
  lemma CanonicalForm(a: Json, b: Json)
    requires WellFormed(a) && WellFormed(b)
    ensures Canonical(a) == Canonical(b) <==> Equal(a, b)
  {
    if Equal(a, b) {
      EqualHaveOneForm(a, b);
    }
    if Canonical(a) == Canonical(b) {
      OneFormMeansEqual(a, b);
    }
  }

  /** Sorting loses nothing and settles: the output is a well-formed object equal to the input, and its own form. */
  lemma {:induction false} CanonicalIsEqualAndSettled(j: Json)
    requires WellFormed(j)
    ensures WellFormed(Canonical(j)) && Equal(j, Canonical(j)) && Canonical(Canonical(j)) == Canonical(j)
  {
    match j
    case List(items) =>
      forall i | 0 <= i < |items|
        ensures WellFormed(Canonical(items[i])) && Equal(items[i], Canonical(items[i]))
        ensures Canonical(Canonical(items[i])) == Canonical(items[i])
      {
        CanonicalIsEqualAndSettled(items[i]);
      }
      var c := Canonical(j);
      assert CanonicalItems(c, |c.items|) == c.items;
    case Object(fields) =>
      forall i | 0 <= i < |fields|
        ensures WellFormed(Canonical(fields[i].value)) && Equal(fields[i].value, Canonical(fields[i].value))
        ensures Canonical(Canonical(fields[i].value)) == Canonical(fields[i].value)
      {
        CanonicalIsEqualAndSettled(fields[i].value);
      }
      SettledForm(j);
      EqualToForm(j);
    case _ =>
  }

  lemma SettledForm(j: Json)
    requires j.Object? && DistinctNames(j.fields)
    requires forall i :: 0 <= i < |j.fields| ==>
               && WellFormed(Canonical(j.fields[i].value))
               && Canonical(Canonical(j.fields[i].value)) == Canonical(j.fields[i].value)
    ensures WellFormed(Canonical(j)) && Canonical(Canonical(j)) == Canonical(j)
  {
    var c, names := Canonical(j), SortedNames(j.fields);
    FormOfFields(j);
    FormKeepsNamesDistinct(j);
    forall i | 0 <= i < |names|
      ensures WellFormed(c.fields[i].value) && Canonical(c.fields[i].value) == c.fields[i].value
      ensures names[i] in Names(c.fields) && Lookup(c.fields, names[i]) == c.fields[i].value
    {
      assert FormAt(j, i);
      var k :| 0 <= k < |j.fields| && j.fields[k] == Field(names[i], Lookup(j.fields, names[i]));
      FoundAt(c.fields, i);
    }
    FormOfFields(c);
    forall i | 0 <= i < |names| ensures Canonical(c).fields[i] == c.fields[i] {
      assert FormAt(c, i) && FormAt(j, i);
    }
    assert Canonical(c).fields == c.fields;
  }

  lemma EqualToForm(j: Json)
    requires j.Object? && DistinctNames(j.fields)
    requires forall i :: 0 <= i < |j.fields| ==> Equal(j.fields[i].value, Canonical(j.fields[i].value))
    ensures Equal(j, Canonical(j))
  {
    var c := Canonical(j);
    FormOfFields(j);
    FormKeepsNamesDistinct(j);
    SortedNamesAreNames(j.fields);
    forall i | 0 <= i < |j.fields|
      ensures j.fields[i].name in Names(c.fields)
      ensures Equal(j.fields[i].value, Lookup(c.fields, j.fields[i].name))
    {
      FoundAt(j.fields, i);
      var k := FormAtName(j, j.fields[i].name);
      FoundAt(c.fields, k);
    }
  }
}
