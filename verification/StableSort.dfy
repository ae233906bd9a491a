/** Python's `sorted` with a tuple key: a stable sort, and exactly when its result forgets the input order. */
module StableSort {
  datatype Key = Key(rank: nat, text: string, address: nat)

  /** Code point order on strings. */
  predicate TextAtMost(a: string, b: string) {
    a == "" || (b != "" && (a[0] < b[0] || (a[0] == b[0] && TextAtMost(a[1..], b[1..]))))
  }

  predicate AtMost(a: Key, b: Key) {
    || a.rank < b.rank
    || (a.rank == b.rank && TextAtMost(a.text, b.text) && (a.text == b.text ==> a.address <= b.address))
  }

  lemma {:induction false} TextOrder(a: string, b: string)
    ensures TextAtMost(a, b) || TextAtMost(b, a)
    ensures TextAtMost(a, b) && TextAtMost(b, a) ==> a == b
  {
    if a != "" && b != "" && a[0] == b[0] {
      TextOrder(a[1..], b[1..]);
      assert a == [a[0]] + a[1..] && b == [b[0]] + b[1..];
    }
  }

  /** Code point order: where two strings first differ decides, and a string comes before what extends it. */
  lemma {:induction false} FirstDifferenceDecides(a: string, b: string, i: nat)
    requires i <= |a| && i <= |b| && a[..i] == b[..i]
    ensures i < |a| && i < |b| && a[i] < b[i] ==> TextAtMost(a, b) && !TextAtMost(b, a)
    ensures i == |a| ==> TextAtMost(a, b)
  {
    if i > 0 {
      assert a[..i][0] == b[..i][0];
      assert a[1..][..i - 1] == a[..i][1..] && b[1..][..i - 1] == b[..i][1..];
      FirstDifferenceDecides(a[1..], b[1..], i - 1);
    }
  }

  lemma {:induction false} TextTransitive(a: string, b: string, c: string)
    requires TextAtMost(a, b) && TextAtMost(b, c)
    ensures TextAtMost(a, c)
  {
    if a != "" && a[0] == b[0] && b[0] == c[0] {
      TextTransitive(a[1..], b[1..], c[1..]);
    }
  }

  lemma KeyOrder(a: Key, b: Key)
    ensures AtMost(a, b) || AtMost(b, a)
    ensures AtMost(a, b) && AtMost(b, a) ==> a == b
  {
    TextOrder(a.text, b.text);
  }

  lemma KeyTransitive(a: Key, b: Key, c: Key)
    requires AtMost(a, b) && AtMost(b, c)
    ensures AtMost(a, c)
  {
    if a.rank == b.rank == c.rank {
      TextTransitive(a.text, b.text, c.text);
      TextOrder(a.text, b.text);
    }
  }

  function Insert<T>(key: T -> Key, x: T, s: seq<T>): seq<T> {
    if s == [] || AtMost(key(x), key(s[0])) then [x] + s else [s[0]] + Insert(key, x, s[1..])
  }

  function Sort<T>(key: T -> Key, s: seq<T>): seq<T> {
    if s == [] then [] else Insert(key, s[0], Sort(key, s[1..]))
  }

  predicate Sorted<T>(key: T -> Key, s: seq<T>) {
    forall i, j :: 0 <= i < j < |s| ==> AtMost(key(s[i]), key(s[j]))
  }

  predicate DistinctKeys<T>(key: T -> Key, s: seq<T>) {
    forall i, j :: 0 <= i < j < |s| ==> key(s[i]) != key(s[j])
  }

  /** Elements with one key are one element. */
  predicate KeyDetermines<T(==)>(key: T -> Key, s: seq<T>) {
    forall i, j :: 0 <= i < |s| && 0 <= j < |s| && key(s[i]) == key(s[j]) ==> s[i] == s[j]
  }

  lemma {:induction false} InsertPermutes<T>(key: T -> Key, x: T, s: seq<T>)
    ensures multiset(Insert(key, x, s)) == multiset{x} + multiset(s)
  {
    if s != [] {
      assert s == [s[0]] + s[1..];
      InsertPermutes(key, x, s[1..]);
    }
  }

  lemma {:induction false} SortPermutes<T>(key: T -> Key, s: seq<T>)
    ensures multiset(Sort(key, s)) == multiset(s)
  {
    if s != [] {
      assert s == [s[0]] + s[1..];
      SortPermutes(key, s[1..]);
      InsertPermutes(key, s[0], Sort(key, s[1..]));
    }
  }

  lemma SortHas<T>(key: T -> Key, s: seq<T>, y: T)
    ensures y in Sort(key, s) <==> y in s
  {
    SortPermutes(key, s);
    assert y in Sort(key, s) <==> y in multiset(Sort(key, s));
  }

  lemma InsertHas<T>(key: T -> Key, x: T, s: seq<T>, y: T)
    ensures y in Insert(key, x, s) <==> y == x || y in s
  {
    InsertPermutes(key, x, s);
    assert y in Insert(key, x, s) <==> y in multiset(Insert(key, x, s));
  }

  lemma {:induction false} InsertSorts<T>(key: T -> Key, x: T, s: seq<T>)
    requires Sorted(key, s)
    ensures Sorted(key, Insert(key, x, s))
  {
    if s != [] {
      KeyOrder(key(x), key(s[0]));
      if AtMost(key(x), key(s[0])) {
        forall j | 0 < j < |s| ensures AtMost(key(x), key(s[j])) {
          KeyTransitive(key(x), key(s[0]), key(s[j]));
        }
      } else {
        InsertSorts(key, x, s[1..]);
        var rest := Insert(key, x, s[1..]);
        forall j | 0 <= j < |rest| ensures AtMost(key(s[0]), key(rest[j])) {
          InsertHas(key, x, s[1..], rest[j]);
        }
      }
    }
  }

  predicate KeyUnused<T>(key: T -> Key, x: T, s: seq<T>) {
    forall i :: 0 <= i < |s| ==> key(s[i]) != key(x)
  }

  lemma {:induction false} InsertKeepsDistinct<T>(key: T -> Key, x: T, s: seq<T>)
    requires DistinctKeys(key, s) && KeyUnused(key, x, s)
    ensures DistinctKeys(key, Insert(key, x, s))
  {
    if s != [] && !AtMost(key(x), key(s[0])) {
      InsertKeepsDistinct(key, x, s[1..]);
      var rest := Insert(key, x, s[1..]);
      forall j | 0 <= j < |rest| ensures key(rest[j]) != key(s[0]) {
        InsertHas(key, x, s[1..], rest[j]);
      }
    }
  }

  lemma {:induction false} SortSorts<T>(key: T -> Key, s: seq<T>)
    ensures Sorted(key, Sort(key, s))
    ensures DistinctKeys(key, s) ==> DistinctKeys(key, Sort(key, s))
  {
    if s != [] {
      var rest := Sort(key, s[1..]);
      SortSorts(key, s[1..]);
      InsertSorts(key, s[0], rest);
      if DistinctKeys(key, s) {
        forall j | 0 <= j < |rest| ensures key(rest[j]) != key(s[0]) {
          SortHas(key, s[1..], rest[j]);
        }
        InsertKeepsDistinct(key, s[0], rest);
      }
    }
  }

  lemma FirstIsLeast<T>(key: T -> Key, s: seq<T>, x: T)
    requires Sorted(key, s) && x in s
    ensures AtMost(key(s[0]), key(x))
  {
    KeyOrder(key(s[0]), key(s[0]));
  }

  lemma SameElementIn<T>(s: seq<T>, t: seq<T>, x: T)
    requires multiset(s) == multiset(t) && x in s
    ensures x in t
  {
    assert x in multiset(s);
  }

  lemma SameLength<T>(s: seq<T>, t: seq<T>)
    requires multiset(s) == multiset(t)
    ensures |s| == |t|
  {
    assert |multiset(s)| == |s| && |multiset(t)| == |t|;
  }

  lemma FirstsAgree<T>(key: T -> Key, s: seq<T>, t: seq<T>)
    requires Sorted(key, s) && Sorted(key, t) && KeyDetermines(key, s) && multiset(s) == multiset(t)
    requires s != [] && t != []
    ensures s[0] == t[0]
  {
    SameElementIn(t, s, t[0]);
    SameElementIn(s, t, s[0]);
    FirstIsLeast(key, s, t[0]);
    FirstIsLeast(key, t, s[0]);
    KeyOrder(key(s[0]), key(t[0]));
  }

  lemma TailsPermute<T>(s: seq<T>, t: seq<T>)
    requires s != [] && t != [] && s[0] == t[0] && multiset(s) == multiset(t)
    ensures multiset(s[1..]) == multiset(t[1..])
  {
    assert s == [s[0]] + s[1..] && t == [t[0]] + t[1..];
    assert multiset(s[1..]) == multiset(s) - multiset{s[0]};
  }

  /** There is one way to write in order what its keys tell apart. */
  lemma {:induction false} SortedIsUnique<T>(key: T -> Key, s: seq<T>, t: seq<T>)
    requires Sorted(key, s) && Sorted(key, t) && KeyDetermines(key, s) && multiset(s) == multiset(t)
    ensures s == t
  {
    SameLength(s, t);
    if s != [] {
      FirstsAgree(key, s, t);
      TailsPermute(s, t);
      SortedIsUnique(key, s[1..], t[1..]);
      assert s == [s[0]] + s[1..] && t == [t[0]] + t[1..];
    }
  }

  /** Sorting forgets the order of the input when the keys tell the elements apart. */
  lemma SortForgetsOrder<T>(key: T -> Key, s: seq<T>, t: seq<T>)
    requires KeyDetermines(key, s) && multiset(s) == multiset(t)
    ensures Sort(key, s) == Sort(key, t)
  {
    SortSorts(key, s);
    SortSorts(key, t);
    SortPermutes(key, s);
    SortPermutes(key, t);
    var r := Sort(key, s);
    forall i | 0 <= i < |r| ensures r[i] in s {
      SortHas(key, s, r[i]);
    }
    SortedIsUnique(key, r, Sort(key, t));
  }

  /** Where each key is used once, the elements decide the multiset. */
  lemma {:induction false} DistinctOnce<T>(key: T -> Key, s: seq<T>, x: T)
    requires DistinctKeys(key, s)
    ensures multiset(s)[x] == if x in s then 1 else 0
  {
    if s != [] {
      assert s == [s[0]] + s[1..];
      DistinctOnce(key, s[1..], x);
      assert s[0] !in s[1..] by {
        forall k | 0 <= k < |s[1..]| ensures s[1..][k] != s[0] {
          assert key(s[0]) != key(s[k + 1]);
        }
      }
    }
  }

  /** What is sorted already stays as it is. */
  lemma {:induction false} SortOfSorted<T>(key: T -> Key, s: seq<T>)
    requires Sorted(key, s)
    ensures Sort(key, s) == s
  {
    if s != [] {
      SortOfSorted(key, s[1..]);
      assert |s| > 1 ==> s[1] == s[1..][0];
      assert s == [s[0]] + s[1..];
    }
  }

  /** The elements with a given key, in order. */
  function OfKey<T>(key: T -> Key, k: Key, s: seq<T>): seq<T> {
    if s == [] then [] else (if key(s[0]) == k then [s[0]] else []) + OfKey(key, k, s[1..])
  }

  lemma {:induction false} InsertIsStable<T>(key: T -> Key, k: Key, x: T, s: seq<T>)
    ensures OfKey(key, k, Insert(key, x, s)) == OfKey(key, k, [x] + s)
  {
    assert ([x] + s)[1..] == s;
    if s != [] && !AtMost(key(x), key(s[0])) {
      KeyOrder(key(x), key(x));
      InsertIsStable(key, k, x, s[1..]);
      assert ([s[0]] + Insert(key, x, s[1..]))[1..] == Insert(key, x, s[1..]);
      assert ([x] + s[1..])[1..] == s[1..];
    }
  }

  /** Stability: elements with one key keep their order. */
  lemma {:induction false} SortIsStable<T>(key: T -> Key, k: Key, s: seq<T>)
    ensures OfKey(key, k, Sort(key, s)) == OfKey(key, k, s)
  {
    if s != [] {
      var rest := Sort(key, s[1..]);
      SortIsStable(key, k, s[1..]);
      InsertIsStable(key, k, s[0], rest);
      assert ([s[0]] + rest)[1..] == rest;
    }
  }

  lemma {:induction false} OfKeyHas<T>(key: T -> Key, k: Key, s: seq<T>)
    ensures OfKey(key, k, s) != [] <==> exists i :: 0 <= i < |s| && key(s[i]) == k
  {
    if s != [] {
      OfKeyHas(key, k, s[1..]);
      assert forall i :: 0 < i < |s| ==> s[i] == s[1..][i - 1];
      if OfKey(key, k, s[1..]) != [] {
        var i :| 0 <= i < |s[1..]| && key(s[1..][i]) == k;
        assert key(s[i + 1]) == k;
      }
    }
  }

  lemma FirstKeyAppears<T>(key: T -> Key, r: seq<T>, t: seq<T>)
    requires Sorted(key, r) && t != [] && OfKey(key, key(t[0]), r) == OfKey(key, key(t[0]), t)
    ensures r != [] && AtMost(key(r[0]), key(t[0]))
  {
    OfKeyHas(key, key(t[0]), r);
    var i :| 0 <= i < |r| && key(r[i]) == key(t[0]);
    FirstIsLeast(key, r, r[i]);
  }

  /** Sorted and stable leave no choice: any algorithm that is both computes `Sort`. */
  lemma {:induction false} StableOrderIsUnique<T>(key: T -> Key, r: seq<T>, t: seq<T>)
    requires Sorted(key, r) && Sorted(key, t)
    requires forall k :: OfKey(key, k, r) == OfKey(key, k, t)
    ensures r == t
  {
    if t != [] {
      FirstKeyAppears(key, r, t);
    }
    if r != [] {
      FirstKeyAppears(key, t, r);
      KeyOrder(key(r[0]), key(t[0]));
      assert OfKey(key, key(r[0]), r)[0] == OfKey(key, key(r[0]), t)[0];
      forall k ensures OfKey(key, k, r[1..]) == OfKey(key, k, t[1..]) {
        TailOfKey(key, k, r, t);
      }
      StableOrderIsUnique(key, r[1..], t[1..]);
      assert r == [r[0]] + r[1..] && t == [t[0]] + t[1..];
    }
  }

  lemma TailOfKey<T>(key: T -> Key, k: Key, r: seq<T>, t: seq<T>)
    requires r != [] && t != [] && r[0] == t[0] && OfKey(key, k, r) == OfKey(key, k, t)
    ensures OfKey(key, k, r[1..]) == OfKey(key, k, t[1..])
  {
    var head, a, b := if key(r[0]) == k then [r[0]] else [], OfKey(key, k, r[1..]), OfKey(key, k, t[1..]);
    assert head + a == head + b;
    assert a == (head + a)[|head|..] && b == (head + b)[|head|..];
  }

  function Mapped<T, U>(f: T -> U, s: seq<T>): (r: seq<U>)
    ensures |r| == |s| && forall i :: 0 <= i < |s| ==> r[i] == f(s[i])
  {
    if s == [] then [] else [f(s[0])] + Mapped(f, s[1..])
  }

  lemma {:induction false} InsertCommutes<T, U>(key: T -> Key, key': U -> Key, f: T -> U, x: T, s: seq<T>)
    requires key'(f(x)) == key(x) && forall i :: 0 <= i < |s| ==> key'(f(s[i])) == key(s[i])
    ensures Mapped(f, Insert(key, x, s)) == Insert(key', f(x), Mapped(f, s))
  {
    if s != [] {
      if AtMost(key(x), key(s[0])) {
        assert ([x] + s)[1..] == s;
      } else {
        InsertCommutes(key, key', f, x, s[1..]);
        assert Mapped(f, s)[1..] == Mapped(f, s[1..]);
        assert ([s[0]] + Insert(key, x, s[1..]))[1..] == Insert(key, x, s[1..]);
      }
    }
  }

  /** Sorting and then translating is translating and then sorting, when the translation keeps the keys. */
  lemma {:induction false} SortCommutes<T, U>(key: T -> Key, key': U -> Key, f: T -> U, s: seq<T>)
    requires forall i :: 0 <= i < |s| ==> key'(f(s[i])) == key(s[i])
    ensures Mapped(f, Sort(key, s)) == Sort(key', Mapped(f, s))
  {
    if s != [] {
      SortCommutes(key, key', f, s[1..]);
      var rest := Sort(key, s[1..]);
      forall i | 0 <= i < |rest| ensures key'(f(rest[i])) == key(rest[i]) {
        SortHas(key, s[1..], rest[i]);
      }
      InsertCommutes(key, key', f, s[0], rest);
    }
  }

  lemma MappedConcat<T, U>(f: T -> U, a: seq<T>, b: seq<T>)
    ensures Mapped(f, a + b) == Mapped(f, a) + Mapped(f, b)
  {
  }

  lemma MappedAround<T, U>(f: T -> U, a: seq<T>, x: T, b: seq<T>)
    ensures multiset(Mapped(f, a + [x] + b)) == multiset{f(x)} + multiset(Mapped(f, a + b))
  {
    MappedConcat(f, a, b);
    MappedConcat(f, a + [x], b);
    MappedConcat(f, a, [x]);
    assert Mapped(f, [x]) == [f(x)];
  }

  lemma WithoutOne<T>(s: seq<T>, t: seq<T>, k: nat)
    requires multiset(s) == multiset(t) && s != [] && k < |t| && t[k] == s[0]
    ensures multiset(s[1..]) == multiset(t[..k] + t[k + 1..])
  {
    assert s == [s[0]] + s[1..];
    assert t == t[..k] + [t[k]] + t[k + 1..];
    assert multiset(s[1..]) == multiset(s) - multiset{s[0]};
  }

  lemma {:induction false} MappedPermutes<T, U>(f: T -> U, s: seq<T>, t: seq<T>)
    requires multiset(s) == multiset(t)
    ensures multiset(Mapped(f, s)) == multiset(Mapped(f, t))
  {
    SameLength(s, t);
    if s != [] {
      SameElementIn(s, t, s[0]);
      var k :| 0 <= k < |t| && t[k] == s[0];
      WithoutOne(s, t, k);
      MappedPermutes(f, s[1..], t[..k] + t[k + 1..]);
      MappedAround(f, t[..k], t[k], t[k + 1..]);
      assert t == t[..k] + [t[k]] + t[k + 1..];
    }
  }

  /** Elements with one key translate to one value. */
  predicate TiesAgree<T, U(==)>(key: T -> Key, f: T -> U, s: seq<T>) {
    forall i, j :: 0 <= i < j < |s| && key(s[i]) == key(s[j]) ==> f(s[i]) == f(s[j])
  }

  ghost predicate OrderNeverShows<T(!new), U>(key: T -> Key, f: T -> U, s: seq<T>) {
    forall t :: multiset(t) == multiset(s) ==> Mapped(f, Sort(key, t)) == Mapped(f, Sort(key, s))
  }

  lemma TiesAgreeDetermines<T, U>(key: T -> Key, key': U -> Key, f: T -> U, s: seq<T>)
    requires forall i :: 0 <= i < |s| ==> key'(f(s[i])) == key(s[i])
    requires TiesAgree(key, f, s)
    ensures KeyDetermines(key', Mapped(f, s))
  {
  }

  /** Two elements with one key keep the order they came in. */
  lemma TieShows<T, U>(key: T -> Key, key': U -> Key, f: T -> U, x: T, y: T, rest: seq<T>)
    requires forall z :: z in [x, y] + rest ==> key'(f(z)) == key(z)
    requires key(x) == key(y)
    requires Mapped(f, Sort(key, [x, y] + rest)) == Mapped(f, Sort(key, [y, x] + rest))
    ensures f(x) == f(y)
  {
    var s, t := [x, y] + rest, [y, x] + rest;
    assert forall z :: z in t ==> z in s;
    SortCommutes(key, key', f, s);
    SortCommutes(key, key', f, t);
    SortIsStable(key', key(x), Mapped(f, s));
    SortIsStable(key', key(x), Mapped(f, t));
    FirstOfItsKey(key', Mapped(f, s));
    FirstOfItsKey(key', Mapped(f, t));
  }

  lemma FirstOfItsKey<T>(key: T -> Key, s: seq<T>)
    requires s != []
    ensures OfKey(key, key(s[0]), s) != [] && OfKey(key, key(s[0]), s)[0] == s[0]
  {
  }

  lemma Pulled<T>(s: seq<T>, i: nat, j: nat) returns (rest: seq<T>)
    requires i < j < |s|
    ensures multiset([s[i], s[j]] + rest) == multiset(s) == multiset([s[j], s[i]] + rest)
  {
    rest := s[..i] + s[i + 1..j] + s[j + 1..];
    assert s == s[..i] + [s[i]] + s[i + 1..j] + [s[j]] + s[j + 1..];
  }

  lemma KeysAgree<T, U>(key: T -> Key, key': U -> Key, f: T -> U, s: seq<T>, t: seq<T>)
    requires forall i :: 0 <= i < |s| ==> key'(f(s[i])) == key(s[i])
    requires multiset(s) == multiset(t)
    ensures forall x :: x in t ==> key'(f(x)) == key(x)
  {
    forall x | x in t ensures key'(f(x)) == key(x) {
      SameElementIn(t, s, x);
    }
  }

  lemma AgreedTiesHideOrder<T, U>(key: T -> Key, key': U -> Key, f: T -> U, s: seq<T>, t: seq<T>)
    requires forall i :: 0 <= i < |s| ==> key'(f(s[i])) == key(s[i])
    requires TiesAgree(key, f, s) && multiset(t) == multiset(s)
    ensures Mapped(f, Sort(key, t)) == Mapped(f, Sort(key, s))
  {
    KeysAgree(key, key', f, s, t);
    SortCommutes(key, key', f, s);
    SortCommutes(key, key', f, t);
    TiesAgreeDetermines(key, key', f, s);
    MappedPermutes(f, s, t);
    SortForgetsOrder(key', Mapped(f, s), Mapped(f, t));
  }

  lemma HiddenOrderAgreesOnTies<T(!new), U>(key: T -> Key, key': U -> Key, f: T -> U, s: seq<T>, i: nat, j: nat)
    requires forall i :: 0 <= i < |s| ==> key'(f(s[i])) == key(s[i])
    requires OrderNeverShows(key, f, s) && i < j < |s| && key(s[i]) == key(s[j])
    ensures f(s[i]) == f(s[j])
  {
    var rest := Pulled(s, i, j);
    KeysAgree(key, key', f, s, [s[i], s[j]] + rest);
    TieShows(key, key', f, s[i], s[j], rest);
  }

  /** The input order shows in what is made of the sorted list exactly when two tied elements differ in it. */
  lemma OrderNeverShowsIff<T(!new), U>(key: T -> Key, key': U -> Key, f: T -> U, s: seq<T>)
    requires forall i :: 0 <= i < |s| ==> key'(f(s[i])) == key(s[i])
    ensures OrderNeverShows(key, f, s) <==> TiesAgree(key, f, s)
  {
    if TiesAgree(key, f, s) {
      forall t | multiset(t) == multiset(s) ensures Mapped(f, Sort(key, t)) == Mapped(f, Sort(key, s)) {
        AgreedTiesHideOrder(key, key', f, s, t);
      }
    }
    if OrderNeverShows(key, f, s) {
      forall i, j | 0 <= i < j < |s| && key(s[i]) == key(s[j]) ensures f(s[i]) == f(s[j]) {
        HiddenOrderAgreesOnTies(key, key', f, s, i, j);
      }
    }
  }
}
