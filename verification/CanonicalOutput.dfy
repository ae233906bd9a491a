/** The assembled output: what its sorted lists depend on, and that the final sort does nothing below the top. */
module CanonicalOutput {
  import opened Wrappers
  import opened StableSort
  import opened CanonicalJson

  /** `obj.get(name)`. */
  function Get(j: Json, name: string): Json {
    if j.Object? && name in Names(j.fields) then Lookup(j.fields, name) else Null
  }

  /** The only values Python can sort with one another here: an id or role that is text, or none at all. */
  predicate TextOrNone(v: Json) {
    v.Text? || v.Null?
  }

  predicate KeyedByText(record: Json) {
    TextOrNone(Get(record, "applicant_id")) && TextOrNone(Get(record, "applicant_role"))
  }

  predicate AllKeyedByText(records: seq<Json>) {
    forall i :: 0 <= i < |records| ==> KeyedByText(records[i])
  }

  /** A path is text or absent; a path that is null is neither. */
  predicate PathIsText(item: Json) {
    Get(item, "path").Text? || !(item.Object? && "path" in Names(item.fields))
  }

  predicate AllPathsAreText(items: seq<Json>) {
    forall i :: 0 <= i < |items| ==> PathIsText(items[i])
  }

  /** Applicants with neither id nor role are told apart by where they sit in memory. */
  datatype Applicant = Applicant(record: Json, address: nat)

  /** The key without the address: ties here are what the records do not decide. */
  function RecordKey(record: Json): Key {
    var id, role := Get(record, "applicant_id"), Get(record, "applicant_role");
    if id.Text? then Key(0, id.text, 0) else if role.Text? then Key(1, role.text, 0) else Key(2, "", 0)
  }

  function ApplicantKey(a: Applicant): Key {
    var key := RecordKey(a.record);
    if key.rank == 2 then Key(2, "", a.address) else key
  }

  function EvidenceKey(item: Json): Key {
    var path := Get(item, "path");
    Key(0, if path.Text? then path.text else "", 0)
  }

  function RecordOf(a: Applicant): Json {
    a.record
  }

  function FormOf(a: Applicant): Json {
    Canonical(a.record)
  }

  /** `[_sort_dict_keys(app) for app in _sort_applicants(applicants)]`. */
  function SortedApplicants(applicants: seq<Applicant>): seq<Json> {
    Mapped(FormOf, Sort(ApplicantKey, applicants))
  }

  function SortedEvidence(evidence: seq<Json>): seq<Json> {
    Mapped(Canonical, Sort(EvidenceKey, evidence))
  }

  // ---- Keys survive the inner sort

  lemma FormKeepsText(j: Json, name: string)
    requires WellFormed(j)
    ensures Get(Canonical(j), name) == Canonical(Get(j, name))
  {
    if j.Object? {
      FormOfFields(j);
      SortedNamesAreNames(j.fields);
      if name in Names(j.fields) {
        var i := FormAtName(j, name);
        FormKeepsNamesDistinct(j);
        FoundAt(Canonical(j).fields, i);
      }
    }
  }

  predicate SameText(v: Json, w: Json) {
    v.Text? == w.Text? && (v.Text? ==> v == w)
  }

  lemma FormIsSameText(j: Json, name: string)
    requires WellFormed(j)
    ensures SameText(Get(Canonical(j), name), Get(j, name))
  {
    FormKeepsText(j, name);
    var v := Get(j, name);
    assert SameText(Canonical(v), v);
  }

  lemma SameTextSameKey(j: Json, c: Json)
    requires SameText(Get(c, "applicant_id"), Get(j, "applicant_id"))
    requires SameText(Get(c, "applicant_role"), Get(j, "applicant_role"))
    requires SameText(Get(c, "path"), Get(j, "path"))
    ensures RecordKey(c) == RecordKey(j) && EvidenceKey(c) == EvidenceKey(j)
  {
  }

  lemma FormKeepsKeys(j: Json)
    requires WellFormed(j)
    ensures RecordKey(Canonical(j)) == RecordKey(j) && EvidenceKey(Canonical(j)) == EvidenceKey(j)
  {
    FormIsSameText(j, "applicant_id");
    FormIsSameText(j, "applicant_role");
    FormIsSameText(j, "path");
    SameTextSameKey(j, Canonical(j));
  }

  // ---- Evidence

  predicate AllWellFormed(s: seq<Json>) {
    forall i :: 0 <= i < |s| ==> WellFormed(s[i])
  }

  /** Any two items sorted under one path are equal. */
  predicate PathsTell(s: seq<Json>) {
    forall i, j :: 0 <= i < j < |s| && EvidenceKey(s[i]) == EvidenceKey(s[j]) ==> Equal(s[i], s[j])
  }

  ghost predicate ItemsDecide(s: seq<Json>) {
    forall t :: multiset(t) == multiset(s) ==> SortedEvidence(t) == SortedEvidence(s)
  }

  lemma ItemsDecideIsOrderNeverShows(s: seq<Json>)
    ensures ItemsDecide(s) <==> OrderNeverShows(EvidenceKey, Canonical, s)
  {
    if ItemsDecide(s) {
      forall t | multiset(t) == multiset(s)
        ensures Mapped(Canonical, Sort(EvidenceKey, t)) == Mapped(Canonical, Sort(EvidenceKey, s))
      {
        assert SortedEvidence(t) == SortedEvidence(s);
      }
    }
  }

  /** The evidence comes out the same from every input order if and only if items on one path are equal. */
  lemma EvidenceIsDeterministicIff(s: seq<Json>)
    requires AllWellFormed(s) && AllPathsAreText(s)
    ensures ItemsDecide(s) <==> PathsTell(s)
  {
    forall i | 0 <= i < |s| ensures EvidenceKey(Canonical(s[i])) == EvidenceKey(s[i]) {
      FormKeepsKeys(s[i]);
    }
    OrderNeverShowsIff(EvidenceKey, EvidenceKey, Canonical, s);
    forall i, j | 0 <= i < j < |s| ensures Canonical(s[i]) == Canonical(s[j]) <==> Equal(s[i], s[j]) {
      CanonicalForm(s[i], s[j]);
    }
    ItemsDecideIsOrderNeverShows(s);
  }

  /** The path of an item; an absent one is read as the empty text. */
  function PathOf(item: Json): string {
    if Get(item, "path").Text? then Get(item, "path").text else ""
  }

  lemma FormKeepsPath(j: Json)
    requires WellFormed(j)
    ensures PathOf(Canonical(j)) == PathOf(j)
  {
    FormIsSameText(j, "path");
  }

  /** The evidence comes out in order of path, and it is the forms of what was passed. */
  lemma EvidenceIsInPathOrder(s: seq<Json>)
    requires AllWellFormed(s) && AllPathsAreText(s)
    ensures multiset(SortedEvidence(s)) == multiset(Mapped(Canonical, s))
    ensures forall i, j :: 0 <= i < j < |SortedEvidence(s)| ==>
              TextAtMost(PathOf(SortedEvidence(s)[i]), PathOf(SortedEvidence(s)[j]))
  {
    var r := Sort(EvidenceKey, s);
    SortPermutes(EvidenceKey, s);
    MappedPermutes(Canonical, r, s);
    SortSorts(EvidenceKey, s);
    SortedEvidenceWellFormed(s, r);
    forall i, j | 0 <= i < j < |r| ensures TextAtMost(PathOf(Canonical(r[i])), PathOf(Canonical(r[j]))) {
      FormKeepsPath(r[i]);
      FormKeepsPath(r[j]);
      assert AtMost(EvidenceKey(r[i]), EvidenceKey(r[j]));
    }
  }

  lemma SortedEvidenceWellFormed(s: seq<Json>, r: seq<Json>)
    requires AllWellFormed(s) && multiset(r) == multiset(s)
    ensures AllWellFormed(r)
  {
    forall i | 0 <= i < |r| ensures WellFormed(r[i]) {
      SameElementIn(r, s, r[i]);
    }
  }

  // ---- Applicants

  /** Some arrangement of these records, at whatever addresses. */
  predicate Holds(applicants: seq<Applicant>, records: seq<Json>) {
    multiset(Mapped(RecordOf, applicants)) == multiset(records)
  }

  /** Any two applicants with one id, with one role and no id, or with neither, are equal. */
  predicate KeysTell(records: seq<Json>) {
    forall i, j :: 0 <= i < j < |records| && RecordKey(records[i]) == RecordKey(records[j]) ==>
      Equal(records[i], records[j])
  }

  ghost predicate RecordsDecide(records: seq<Json>) {
    forall s, t :: Holds(s, records) && Holds(t, records) ==> SortedApplicants(s) == SortedApplicants(t)
  }

  /** The records at rising addresses. */
  function Placed(records: seq<Json>, from: nat): (r: seq<Applicant>)
    ensures |r| == |records| && forall i :: 0 <= i < |r| ==> r[i] == Applicant(records[i], from + i)
  {
    if records == [] then [] else [Applicant(records[0], from)] + Placed(records[1..], from + 1)
  }

  function PlainKey(a: Applicant): Key {
    RecordKey(a.record)
  }

  lemma {:induction false} RisingInsert(x: Applicant, s: seq<Applicant>)
    requires forall i :: 0 <= i < |s| ==> x.address < s[i].address
    ensures Insert(ApplicantKey, x, s) == Insert(PlainKey, x, s)
  {
    if s != [] {
      RisingInsert(x, s[1..]);
    }
  }

  /** At rising addresses the address decides as the input order would. */
  lemma {:induction false} RisingSort(records: seq<Json>, from: nat)
    ensures Sort(ApplicantKey, Placed(records, from)) == Sort(PlainKey, Placed(records, from))
  {
    if records != [] {
      var s := Placed(records, from);
      assert s[1..] == Placed(records[1..], from + 1);
      RisingSort(records[1..], from + 1);
      var rest := Sort(PlainKey, s[1..]);
      forall i | 0 <= i < |rest| ensures from < rest[i].address {
        SortHas(PlainKey, s[1..], rest[i]);
      }
      RisingInsert(s[0], rest);
    }
  }

  lemma PlacedOutput(records: seq<Json>)
    ensures SortedApplicants(Placed(records, 0)) == Mapped(Canonical, Sort(RecordKey, records))
  {
    var s := Placed(records, 0);
    RisingSort(records, 0);
    SortCommutes(PlainKey, RecordKey, RecordOf, s);
    assert Mapped(RecordOf, s) == records;
    assert Mapped(FormOf, Sort(PlainKey, s)) == Mapped(Canonical, Mapped(RecordOf, Sort(PlainKey, s)));
  }

  lemma PlacedHolds(records: seq<Json>, t: seq<Json>)
    requires multiset(t) == multiset(records)
    ensures Holds(Placed(t, 0), records)
  {
    assert Mapped(RecordOf, Placed(t, 0)) == t;
  }

  lemma FineOrderIsPlainOrder(a: Applicant, b: Applicant)
    requires AtMost(ApplicantKey(a), ApplicantKey(b))
    ensures AtMost(PlainKey(a), PlainKey(b))
  {
  }

  lemma SortedRecords(s: seq<Applicant>) returns (q: seq<Json>)
    ensures SortedApplicants(s) == Mapped(Canonical, q)
    ensures multiset(q) == multiset(Mapped(RecordOf, s)) && Sorted(RecordKey, q)
  {
    var r := Sort(ApplicantKey, s);
    q := Mapped(RecordOf, r);
    SortPermutes(ApplicantKey, s);
    MappedPermutes(RecordOf, r, s);
    SortSorts(ApplicantKey, s);
    forall i, j | 0 <= i < j < |q| ensures AtMost(RecordKey(q[i]), RecordKey(q[j])) {
      FineOrderIsPlainOrder(r[i], r[j]);
    }
  }

  lemma FormsStaySorted(q: seq<Json>)
    requires AllWellFormed(q) && Sorted(RecordKey, q)
    ensures Sorted(RecordKey, Mapped(Canonical, q))
  {
    forall i, j | 0 <= i < j < |q|
      ensures AtMost(RecordKey(Canonical(q[i])), RecordKey(Canonical(q[j])))
    {
      FormKeepsKeys(q[i]);
      FormKeepsKeys(q[j]);
    }
  }

  lemma WellFormedAlso(s: seq<Json>, t: seq<Json>)
    requires AllWellFormed(s) && multiset(s) == multiset(t)
    ensures AllWellFormed(t)
  {
    forall i | 0 <= i < |t| ensures WellFormed(t[i]) {
      SameElementIn(t, s, t[i]);
    }
  }

  lemma FormsTell(records: seq<Json>)
    requires AllWellFormed(records)
    ensures KeysTell(records) <==> TiesAgree(RecordKey, Canonical, records)
    ensures KeysTell(records) ==> KeyDetermines(RecordKey, Mapped(Canonical, records))
  {
    forall i, j | 0 <= i < j < |records|
      ensures Canonical(records[i]) == Canonical(records[j]) <==> Equal(records[i], records[j])
    {
      CanonicalForm(records[i], records[j]);
    }
    forall i | 0 <= i < |records| ensures RecordKey(Canonical(records[i])) == RecordKey(records[i]) {
      FormKeepsKeys(records[i]);
    }
    if KeysTell(records) {
      TiesAgreeDetermines(RecordKey, RecordKey, Canonical, records);
    }
  }

  /** What the output is when the keys tell: the forms in order of their own keys, wherever the records came from. */
  lemma ToldOutput(records: seq<Json>, s: seq<Applicant>)
    requires AllWellFormed(records) && KeysTell(records) && Holds(s, records)
    ensures SortedApplicants(s) == Sort(RecordKey, Mapped(Canonical, records))
  {
    var q := SortedRecords(s);
    var forms := Mapped(Canonical, records);
    WellFormedAlso(records, q);
    FormsStaySorted(q);
    MappedPermutes(Canonical, q, records);
    FormsTell(records);
    SortSorts(RecordKey, forms);
    SortPermutes(RecordKey, forms);
    DeterminesAlso(forms, Mapped(Canonical, q));
    SortedIsUnique(RecordKey, Mapped(Canonical, q), Sort(RecordKey, forms));
  }

  lemma DeterminesAlso(s: seq<Json>, t: seq<Json>)
    requires KeyDetermines(RecordKey, s) && multiset(s) == multiset(t)
    ensures KeyDetermines(RecordKey, t)
  {
    forall i, j | 0 <= i < |t| && 0 <= j < |t| && RecordKey(t[i]) == RecordKey(t[j]) ensures t[i] == t[j] {
      SameElementIn(t, s, t[i]);
      SameElementIn(t, s, t[j]);
    }
  }

  /** The applicants come out the same from every order and every address if and only if the keys tell them apart. */
  lemma ApplicantsAreDeterministicIff(records: seq<Json>)
    requires AllWellFormed(records) && AllKeyedByText(records)
    ensures RecordsDecide(records) <==> KeysTell(records)
  {
    if KeysTell(records) {
      forall s, t | Holds(s, records) && Holds(t, records) ensures SortedApplicants(s) == SortedApplicants(t) {
        ToldOutput(records, s);
        ToldOutput(records, t);
      }
    }
    if RecordsDecide(records) {
      forall t | multiset(t) == multiset(records)
        ensures Mapped(Canonical, Sort(RecordKey, t)) == Mapped(Canonical, Sort(RecordKey, records))
      {
        PlacedHolds(records, t);
        PlacedHolds(records, records);
        PlacedOutput(t);
        PlacedOutput(records);
      }
      forall i | 0 <= i < |records| ensures RecordKey(Canonical(records[i])) == RecordKey(records[i]) {
        FormKeepsKeys(records[i]);
      }
      OrderNeverShowsIff(RecordKey, RecordKey, Canonical, records);
      FormsTell(records);
    }
  }

  /** The promise of determinism is broken by two applicants with neither id nor role: addresses order them. */
  lemma AddressesShow(one: string, two: string)
    requires one != two
    ensures !RecordsDecide([Object([Field("name", Text(one))]), Object([Field("name", Text(two))])])
  {
    var a, b := Object([Field("name", Text(one))]), Object([Field("name", Text(two))]);
    assert Names(a.fields) == ["name"] == Names(b.fields);
    assert Lookup(b.fields, "name") == Text(two);
    assert !Equal(Text(one), Text(two));
    assert !Equal(a, b) by {
      assert a.fields[0].name == "name";
    }
    assert RecordKey(a) == RecordKey(b);
    assert "applicant_id" !in Names(a.fields) && "applicant_role" !in Names(a.fields);
    var records := [a, b];
    assert records[0] == a && records[1] == b;
    ApplicantsAreDeterministicIff(records);
  }

  predicate HasId(record: Json) {
    Get(record, "applicant_id").Text?
  }

  predicate HasRole(record: Json) {
    Get(record, "applicant_role").Text?
  }

  predicate Nameless(record: Json) {
    !HasId(record) && !HasRole(record)
  }

  /** By id; behind those by role; behind those the rest. */
  predicate InApplicantOrder(a: Json, b: Json) {
    if HasId(a) && HasId(b) then TextAtMost(Get(a, "applicant_id").text, Get(b, "applicant_id").text)
    else if HasId(a) || HasId(b) then HasId(a)
    else if HasRole(a) && HasRole(b) then TextAtMost(Get(a, "applicant_role").text, Get(b, "applicant_role").text)
    else HasRole(b) ==> HasRole(a)
  }

  lemma KeyOrderIsApplicantOrder(a: Json, b: Json)
    requires AtMost(RecordKey(a), RecordKey(b))
    ensures InApplicantOrder(a, b)
  {
  }

  lemma FormsKeepApplicantOrder(a: Json, b: Json)
    requires WellFormed(a) && WellFormed(b) && InApplicantOrder(a, b)
    ensures InApplicantOrder(Canonical(a), Canonical(b))
  {
    FormIsSameText(a, "applicant_id");
    FormIsSameText(b, "applicant_id");
    FormIsSameText(a, "applicant_role");
    FormIsSameText(b, "applicant_role");
  }

  /** The applicants come out with ids first, then roles, each in code point order, and are the forms of what was
      passed. */
  lemma ApplicantsAreInOrder(s: seq<Applicant>)
    requires AllWellFormed(Mapped(RecordOf, s)) && AllKeyedByText(Mapped(RecordOf, s))
    ensures multiset(SortedApplicants(s)) == multiset(Mapped(Canonical, Mapped(RecordOf, s)))
    ensures forall i, j :: 0 <= i < j < |SortedApplicants(s)| ==>
              InApplicantOrder(SortedApplicants(s)[i], SortedApplicants(s)[j])
  {
    var q := SortedRecords(s);
    MappedPermutes(Canonical, q, Mapped(RecordOf, s));
    WellFormedAlso(Mapped(RecordOf, s), q);
    forall i, j | 0 <= i < j < |q| ensures InApplicantOrder(Canonical(q[i]), Canonical(q[j])) {
      KeyOrderIsApplicantOrder(q[i], q[j]);
      FormsKeepApplicantOrder(q[i], q[j]);
    }
  }

  /** Applicants with neither come out as they lie in memory. */
  lemma NamelessAreInAddressOrder(s: seq<Applicant>) returns (r: seq<Applicant>)
    ensures SortedApplicants(s) == Mapped(FormOf, r) && multiset(r) == multiset(s)
    ensures forall i, j :: 0 <= i < j < |r| && Nameless(r[i].record) && Nameless(r[j].record) ==>
              r[i].address <= r[j].address
  {
    r := Sort(ApplicantKey, s);
    SortPermutes(ApplicantKey, s);
    SortSorts(ApplicantKey, s);
    forall i, j | 0 <= i < j < |r| && Nameless(r[i].record) && Nameless(r[j].record)
      ensures r[i].address <= r[j].address
    {
      assert AtMost(ApplicantKey(r[i]), ApplicantKey(r[j]));
    }
  }

  // ---- The whole output

  /** `_sort_dict_keys(section) if section else {}`. */
  function Section(section: Option<seq<Field>>): Json {
    if section.Some? && section.value != [] then Canonical(Object(section.value)) else Object([])
  }

  function OrEmpty<T>(list: Option<seq<T>>): seq<T> {
    if list.Some? then list.value else []
  }

  function Top(application: Json, applicants: seq<Json>, enrichments: Json, evidence: seq<Json>, generatedAt: string)
    : seq<Field>
  {
    [Field("applicants", List(applicants)), Field("application", application), Field("enrichments", enrichments),
     Field("evidence", List(evidence)), Field("generated_at", Text(generatedAt))]
  }

  /** What may be passed: dictionaries and lists of dictionaries. */
  predicate Passed(application: Option<seq<Field>>, applicants: Option<seq<Applicant>>, enrichments: Option<seq<Field>>,
                   evidence: Option<seq<Json>>) {
    && WellFormed(Object(OrEmpty(application))) && WellFormed(Object(OrEmpty(enrichments)))
    && AllWellFormed(Mapped(RecordOf, OrEmpty(applicants))) && AllKeyedByText(Mapped(RecordOf, OrEmpty(applicants)))
    && AllWellFormed(OrEmpty(evidence)) && AllPathsAreText(OrEmpty(evidence))
  }

  predicate Settled(j: Json) {
    Canonical(j) == j
  }

  lemma SectionIsSettled(section: Option<seq<Field>>)
    requires WellFormed(Object(OrEmpty(section)))
    ensures Settled(Section(section))
  {
    SectionIsForm(section);
    CanonicalIsEqualAndSettled(Object(OrEmpty(section)));
  }

  lemma FormsAreSettled(s: seq<Json>)
    requires AllWellFormed(s)
    ensures Settled(List(Mapped(Canonical, s)))
  {
    var list := List(Mapped(Canonical, s));
    forall i | 0 <= i < |s| ensures Settled(list.items[i]) {
      CanonicalIsEqualAndSettled(s[i]);
    }
    assert CanonicalItems(list, |s|) == list.items;
  }

  lemma SortedEvidenceIsSettled(s: seq<Json>)
    requires AllWellFormed(s)
    ensures Settled(List(SortedEvidence(s)))
  {
    SortPermutes(EvidenceKey, s);
    WellFormedAlso(s, Sort(EvidenceKey, s));
    FormsAreSettled(Sort(EvidenceKey, s));
  }

  lemma SortedApplicantsAreSettled(s: seq<Applicant>)
    requires AllWellFormed(Mapped(RecordOf, s))
    ensures Settled(List(SortedApplicants(s)))
  {
    var q := SortedRecords(s);
    WellFormedAlso(Mapped(RecordOf, s), q);
    FormsAreSettled(q);
  }

  lemma Before(a: string, b: string, i: nat)
    requires i < |a| && i < |b| && a[..i] == b[..i] && a[i] < b[i]
    ensures AtMost(TextKey(a), TextKey(b)) && TextKey(a) != TextKey(b)
  {
    FirstDifferenceDecides(a, b, i);
    assert a[i] != b[i];
  }

  lemma FiveInOrder(a: string, b: string, c: string, d: string, e: string)
    requires 8 <= |a| && 8 <= |b| && a[..7] == b[..7] && a[7] < b[7]
    requires 2 <= |c| && 2 <= |d| && c[..1] == d[..1] && c[1] < d[1]
    requires 1 <= |e| && a[0] == b[0] < c[0] == d[0] < e[0]
    ensures Sorted(TextKey, [a, b, c, d, e]) && DistinctKeys(TextKey, [a, b, c, d, e])
  {
    Before(a, b, 7);
    Before(c, d, 1);
    Before(a, c, 0);
    Before(a, d, 0);
    Before(a, e, 0);
    Before(b, c, 0);
    Before(b, d, 0);
    Before(b, e, 0);
    Before(c, e, 0);
    Before(d, e, 0);
  }

  function Sections(): seq<string> {
    ["applicants", "application", "enrichments", "evidence", "generated_at"]
  }

  lemma SectionsInOrder()
    ensures Sorted(TextKey, Sections()) && DistinctKeys(TextKey, Sections())
  {
    assert "applicants"[..7] == "application"[..7];
    assert "enrichments"[..1] == "evidence"[..1];
    FiveInOrder("applicants", "application", "enrichments", "evidence", "generated_at");
  }

  /** The fields in order of name, each with the form of its value, are the form of the object. */
  lemma FieldsInForm(j: Json, r: seq<Field>)
    requires j.Object? && SortedNames(j.fields) == Names(r)
    requires forall i :: 0 <= i < |r| ==>
               r[i].name in Names(j.fields) && Canonical(Lookup(j.fields, r[i].name)) == r[i].value
    ensures Canonical(j) == Object(r)
  {
    FormOfFields(j);
    var c := Canonical(j);
    assert |c.fields| == |r|;
    forall i | 0 <= i < |r| ensures c.fields[i] == r[i] {
      assert FormAt(j, i);
      assert SortedNames(j.fields)[i] == r[i].name;
    }
    assert c.fields == r;
  }

  /** The output as it is assigned, section by section. */
  function Assigned(application: Json, applicants: seq<Json>, enrichments: Json, evidence: seq<Json>,
                    generatedAt: string)
    : seq<Field>
  {
    [Field("application", application), Field("applicants", List(applicants)), Field("enrichments", enrichments),
     Field("evidence", List(evidence)), Field("generated_at", Text(generatedAt))]
  }

  predicate FirstTwoSwapped(fields: seq<Field>, top: seq<Field>) {
    |top| >= 2 && fields == [top[1], top[0]] + top[2..]
  }

  lemma SwapPermutes<T>(b: seq<T>)
    requires |b| >= 2
    ensures multiset([b[1], b[0]] + b[2..]) == multiset(b)
  {
    assert b == [b[0], b[1]] + b[2..];
  }

  lemma AssignedNames(fields: seq<Field>, top: seq<Field>)
    requires FirstTwoSwapped(fields, top) && Sorted(TextKey, Names(top))
    ensures SortedNames(fields) == Names(top)
  {
    var a, b := Names(fields), Names(top);
    assert a == [b[1], b[0]] + b[2..];
    SwapPermutes(b);
    NamesTell(b);
    SortForgetsOrder(TextKey, b, a);
    SortOfSorted(TextKey, b);
  }

  lemma AssignedLookup(fields: seq<Field>, top: seq<Field>, i: nat)
    requires FirstTwoSwapped(fields, top) && DistinctNames(top) && i < |top|
    ensures top[i].name in Names(fields) && Lookup(fields, top[i].name) == top[i].value
  {
    assert DistinctNames(fields);
    FoundAt(fields, if i == 0 then 1 else if i == 1 then 0 else i);
  }

  lemma NamesTell(names: seq<string>)
    ensures KeyDetermines(TextKey, names)
  {
    forall i, j | 0 <= i < |names| && 0 <= j < |names| && TextKey(names[i]) == TextKey(names[j])
      ensures names[i] == names[j]
    {
      assert TextKey(names[i]).text == names[i];
    }
  }

  lemma FirstTwoSwappedForm(fields: seq<Field>, top: seq<Field>)
    requires FirstTwoSwapped(fields, top) && Names(top) == Sections()
    requires forall i :: 0 <= i < |top| ==> Settled(top[i].value)
    ensures Canonical(Object(fields)) == Object(top)
  {
    SectionsInOrder();
    DistinctKeysMakeDistinctNames(top);
    AssignedNames(fields, top);
    forall i | 0 <= i < |top|
      ensures top[i].name in Names(fields) && Canonical(Lookup(fields, top[i].name)) == top[i].value
    {
      AssignedLookup(fields, top, i);
    }
    FieldsInForm(Object(fields), top);
  }

  lemma AssignedForm(application: Json, applicants: seq<Json>, enrichments: Json, evidence: seq<Json>,
                     generatedAt: string)
    requires Settled(application) && Settled(List(applicants)) && Settled(enrichments) && Settled(List(evidence))
    ensures Canonical(Object(Assigned(application, applicants, enrichments, evidence, generatedAt)))
         == Object(Top(application, applicants, enrichments, evidence, generatedAt))
  {
    var top := Top(application, applicants, enrichments, evidence, generatedAt);
    assert Names(top) == Sections();
    assert Settled(Text(generatedAt));
    FirstTwoSwappedForm(Assigned(application, applicants, enrichments, evidence, generatedAt), top);
  }

  lemma PassedIsSettled(application: Option<seq<Field>>, applicants: Option<seq<Applicant>>,
                        enrichments: Option<seq<Field>>, evidence: Option<seq<Json>>)
    requires Passed(application, applicants, enrichments, evidence)
    ensures Settled(Section(application)) && Settled(Section(enrichments))
    ensures Settled(List(SortedApplicants(OrEmpty(applicants)))) && Settled(List(SortedEvidence(OrEmpty(evidence))))
  {
    SectionIsSettled(application);
    SectionIsSettled(enrichments);
    SortedApplicantsAreSettled(OrEmpty(applicants));
    SortedEvidenceIsSettled(OrEmpty(evidence));
  }

  lemma AssembledForm(application: Option<seq<Field>>, applicants: Option<seq<Applicant>>,
                      enrichments: Option<seq<Field>>, evidence: Option<seq<Json>>, generatedAt: string,
                      fields: seq<Field>)
    requires Passed(application, applicants, enrichments, evidence)
    requires fields == Assigned(Section(application), SortedApplicants(OrEmpty(applicants)), Section(enrichments),
                                SortedEvidence(OrEmpty(evidence)), generatedAt)
    ensures Canonical(Object(fields)) == Assembled(application, applicants, enrichments, evidence, generatedAt)
  {
    PassedIsSettled(application, applicants, enrichments, evidence);
    AssignedForm(Section(application), SortedApplicants(OrEmpty(applicants)), Section(enrichments),
                 SortedEvidence(OrEmpty(evidence)), generatedAt);
  }

  /** The sections in order of name, each the sorted form of what was passed. */
  function Assembled(application: Option<seq<Field>>, applicants: Option<seq<Applicant>>,
                     enrichments: Option<seq<Field>>, evidence: Option<seq<Json>>, generatedAt: string): Json
  {
    Object(Top(Section(application), SortedApplicants(OrEmpty(applicants)), Section(enrichments),
               SortedEvidence(OrEmpty(evidence)), generatedAt))
  }

  /** The closing sort only puts the applicants before the application: every section is in its final form already. */
  method AssembleCanonicalOutput(application: Option<seq<Field>>, applicants: Option<seq<Applicant>>,
                                 enrichments: Option<seq<Field>>, evidence: Option<seq<Json>>, generatedAt: string)
    returns (output: Json)
    requires Passed(application, applicants, enrichments, evidence)
    ensures output == Assembled(application, applicants, enrichments, evidence, generatedAt)
    ensures Get(output, "application") == Canonical(Object(OrEmpty(application)))
    ensures Get(output, "enrichments") == Canonical(Object(OrEmpty(enrichments)))
    ensures Get(output, "applicants") == List(SortedApplicants(OrEmpty(applicants)))
    ensures Get(output, "evidence") == List(SortedEvidence(OrEmpty(evidence)))
    ensures Get(output, "generated_at") == Text(generatedAt)
  {
    var fields := [];   // a new key is appended
    var section := Section(application);
    fields := fields + [Field("application", section)];
    var sortedApplicants := SortedApplicants(OrEmpty(applicants));
    fields := fields + [Field("applicants", List(sortedApplicants))];
    var section' := Section(enrichments);
    fields := fields + [Field("enrichments", section')];
    var sortedEvidence := SortedEvidence(OrEmpty(evidence));
    fields := fields + [Field("evidence", List(sortedEvidence))];
    fields := fields + [Field("generated_at", Text(generatedAt))];
    assert fields == Assigned(section, sortedApplicants, section', sortedEvidence, generatedAt);
    AssembledForm(application, applicants, enrichments, evidence, generatedAt, fields);
    output := Canonical(Object(fields));
    SectionIsForm(application);
    SectionIsForm(enrichments);
    TopIsByName(section, sortedApplicants, section', sortedEvidence, generatedAt);
  }

  lemma TopIsByName(application: Json, applicants: seq<Json>, enrichments: Json, evidence: seq<Json>,
                    generatedAt: string)
    ensures var top := Object(Top(application, applicants, enrichments, evidence, generatedAt));
            && Get(top, "application") == application && Get(top, "enrichments") == enrichments
            && Get(top, "applicants") == List(applicants) && Get(top, "evidence") == List(evidence)
            && Get(top, "generated_at") == Text(generatedAt)
  {
    var fields := Top(application, applicants, enrichments, evidence, generatedAt);
    SectionsInOrder();
    assert Names(fields) == Sections();
    DistinctKeysMakeDistinctNames(fields);
    FiveByName(fields[0], fields[1], fields[2], fields[3], fields[4]);
    assert fields == [fields[0], fields[1], fields[2], fields[3], fields[4]];
  }

  lemma FiveByName(a: Field, b: Field, c: Field, d: Field, e: Field)
    requires DistinctNames([a, b, c, d, e])
    ensures var j := Object([a, b, c, d, e]);
            && Get(j, a.name) == a.value && Get(j, b.name) == b.value && Get(j, c.name) == c.value
            && Get(j, d.name) == d.value && Get(j, e.name) == e.value
  {
    var fields := [a, b, c, d, e];
    FoundAt(fields, 0);
    FoundAt(fields, 1);
    FoundAt(fields, 2);
    FoundAt(fields, 3);
    FoundAt(fields, 4);
  }

  // ---- The promise

  /** Two lists of applicants with equal records, in whatever order and at whatever addresses. */
  ghost predicate SameForms(xs: seq<Json>, ys: seq<Json>) {
    multiset(Mapped(Canonical, xs)) == multiset(Mapped(Canonical, ys))
  }

  /** Calls that are passed equal contents, in whatever key order, list order or memory layout, get one output. */
  lemma EqualInputsGetOneOutput(application: Option<seq<Field>>, applicants: Option<seq<Applicant>>,
                                enrichments: Option<seq<Field>>, evidence: Option<seq<Json>>,
                                application': Option<seq<Field>>, applicants': Option<seq<Applicant>>,
                                enrichments': Option<seq<Field>>, evidence': Option<seq<Json>>, generatedAt: string)
    requires Passed(application, applicants, enrichments, evidence)
    requires Passed(application', applicants', enrichments', evidence')
    requires SameSection(application, application') && SameSection(enrichments, enrichments')
    requires SameForms(Mapped(RecordOf, OrEmpty(applicants)), Mapped(RecordOf, OrEmpty(applicants')))
    requires SameForms(OrEmpty(evidence), OrEmpty(evidence'))
    requires KeysTell(Mapped(RecordOf, OrEmpty(applicants))) && PathsTell(OrEmpty(evidence))
    ensures Assembled(application, applicants, enrichments, evidence, generatedAt)
         == Assembled(application', applicants', enrichments', evidence', generatedAt)
  {
    SameSectionSameForm(application, application');
    SameSectionSameForm(enrichments, enrichments');
    SameApplicantsSameForm(OrEmpty(applicants), OrEmpty(applicants'));
    SameEvidenceSameForm(OrEmpty(evidence), OrEmpty(evidence'));
  }

  predicate SameSection(a: Option<seq<Field>>, b: Option<seq<Field>>) {
    Equal(Object(OrEmpty(a)), Object(OrEmpty(b)))
  }

  lemma SectionIsForm(a: Option<seq<Field>>)
    ensures Section(a) == Canonical(Object(OrEmpty(a)))
  {
    assert Canonical(Object([])) == Object([]);
  }

  lemma SameSectionSameForm(a: Option<seq<Field>>, b: Option<seq<Field>>)
    requires WellFormed(Object(OrEmpty(a))) && WellFormed(Object(OrEmpty(b))) && SameSection(a, b)
    ensures Section(a) == Section(b)
  {
    SectionIsForm(a);
    SectionIsForm(b);
    EqualHaveOneForm(Object(OrEmpty(a)), Object(OrEmpty(b)));
  }

  lemma SameApplicantsSameForm(s: seq<Applicant>, t: seq<Applicant>)
    requires AllWellFormed(Mapped(RecordOf, s)) && AllWellFormed(Mapped(RecordOf, t))
    requires SameForms(Mapped(RecordOf, s), Mapped(RecordOf, t)) && KeysTell(Mapped(RecordOf, s))
    ensures SortedApplicants(s) == SortedApplicants(t)
  {
    var xs, ys := Mapped(RecordOf, s), Mapped(RecordOf, t);
    FormsTell(xs);
    FormsTell(ys);
    DeterminesAlso(Mapped(Canonical, xs), Mapped(Canonical, ys));
    DeterminedTell(ys);
    ToldOutput(xs, s);
    ToldOutput(ys, t);
    SortForgetsOrder(RecordKey, Mapped(Canonical, xs), Mapped(Canonical, ys));
  }

  lemma DeterminedTell(records: seq<Json>)
    requires AllWellFormed(records) && KeyDetermines(RecordKey, Mapped(Canonical, records))
    ensures KeysTell(records)
  {
    var forms := Mapped(Canonical, records);
    forall i, j | 0 <= i < j < |records| && RecordKey(records[i]) == RecordKey(records[j])
      ensures Equal(records[i], records[j])
    {
      FormKeepsKeys(records[i]);
      FormKeepsKeys(records[j]);
      assert forms[i] == forms[j];
      CanonicalForm(records[i], records[j]);
    }
  }

  lemma SameEvidenceSameForm(s: seq<Json>, t: seq<Json>)
    requires AllWellFormed(s) && AllWellFormed(t) && SameForms(s, t) && PathsTell(s)
    ensures SortedEvidence(s) == SortedEvidence(t)
  {
    forall i | 0 <= i < |s| ensures EvidenceKey(Canonical(s[i])) == EvidenceKey(s[i]) {
      FormKeepsKeys(s[i]);
    }
    forall i | 0 <= i < |t| ensures EvidenceKey(Canonical(t[i])) == EvidenceKey(t[i]) {
      FormKeepsKeys(t[i]);
    }
    forall i, j | 0 <= i < j < |s| && EvidenceKey(s[i]) == EvidenceKey(s[j])
      ensures Canonical(s[i]) == Canonical(s[j])
    {
      CanonicalForm(s[i], s[j]);
    }
    SortCommutes(EvidenceKey, EvidenceKey, Canonical, s);
    SortCommutes(EvidenceKey, EvidenceKey, Canonical, t);
    TiesAgreeDetermines(EvidenceKey, EvidenceKey, Canonical, s);
    SortForgetsOrder(EvidenceKey, Mapped(Canonical, s), Mapped(Canonical, t));
  }
}
