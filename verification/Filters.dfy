/**
 Canonical query filters: the normal form of a nested JSON filter, the
 fingerprint of a query and the hash of a coverage scope.
 SHA-256 is taken to be injective, so a hash is modelled by the text it digests.
 */
module Filters {
  import opened Ordering
  import opened JsonText
  import opened Text

  const QUERY_SCHEMA_VERSION: nat := 1

  predicate IsEmptyValue(v: Json) {
    v == Null || v == Str("") || v == Arr([]) || v == Obj([])
  }

  predicate IsStateKey(key: string) {
    key in {"state", "states", "uf", "ufs"}
  }

  predicate IsCodeKey(key: string) {
    key in {"cnpj", "cnae", "cnaes", "municipality_code", "municipality_codes"}
  }

  function NormText(key: string, s: string): string {
    var clean := Clean(s, NotSpace);
    if IsStateKey(key) then Upper(clean)
    else if IsCodeKey(key) then Only(clean, IsAlnum)
    else clean
  }

  // `_normalize_value`; list items inherit the key of their list.
  function Norm(key: string, v: Json): Json
    decreases v, 0
  {
    match v
    case Obj(es) => Obj(Sort(NormEntries(es)))
    case Arr(items) => Arr(Values(Sort(NormItems(key, items))))
    case Str(s) => Str(NormText(key, s))
    case _ => v
  }

  function NormEntries(es: seq<Keyed<Json>>): seq<Keyed<Json>>
    decreases es, 0
  {
    if es == [] then []
    else
      var v := Norm(es[0].key, es[0].value);
      (if IsEmptyValue(v) then [] else [Keyed(es[0].key, v)]) + NormEntries(es[1..])
  }

  // The non-empty normal items, each under the text it is sorted by.
  function NormItems(key: string, items: seq<Json>): seq<Keyed<Json>>
    decreases items, 0
  {
    if items == [] then []
    else
      var v := Norm(key, items[0]);
      (if IsEmptyValue(v) then [] else [Tagged(v)]) + NormItems(key, items[1..])
  }

  function Tagged(v: Json): Keyed<Json> {
    Keyed(Dumps(v, SPACED), v)
  }

  function Values(xs: seq<Keyed<Json>>): (vs: seq<Json>)
    ensures |vs| == |xs| && forall i :: 0 <= i < |xs| ==> vs[i] == xs[i].value
  {
    if xs == [] then [] else [xs[0].value] + Values(xs[1..])
  }

  // ------------------------------------------------------------- normal values

  // Every part of v is non-empty, in its normal spelling and in its sorted place.
  ghost predicate Normal(key: string, v: Json)
    decreases v
  {
    match v
    case Obj(es) =>
      Sorted(es) && forall i :: 0 <= i < |es| ==> !IsEmptyValue(es[i].value) && Normal(es[i].key, es[i].value)
    case Arr(items) =>
      && (forall i, j :: 0 <= i < j < |items| ==> Leq(Dumps(items[i], SPACED), Dumps(items[j], SPACED)))
      && forall i :: 0 <= i < |items| ==> !IsEmptyValue(items[i]) && Normal(key, items[i])
    case Str(s) => NormText(key, s) == s
    case _ => true
  }

  /** No mapping or list inside v holds an empty value. */
  ghost predicate NoEmptyInside(v: Json)
    decreases v
  {
    match v
    case Obj(es) => forall i :: 0 <= i < |es| ==> !IsEmptyValue(es[i].value) && NoEmptyInside(es[i].value)
    case Arr(items) => forall i :: 0 <= i < |items| ==> !IsEmptyValue(items[i]) && NoEmptyInside(items[i])
    case _ => true
  }

  lemma {:induction false} NormalShape(key: string, v: Json)
    requires Normal(key, v)
    ensures KeysSorted(v) && NoEmptyInside(v)
    decreases v
  {
    match v
    case Obj(es) =>
      forall i | 0 <= i < |es| ensures KeysSorted(es[i].value) && NoEmptyInside(es[i].value) {
        NormalShape(es[i].key, es[i].value);
      }
    case Arr(items) =>
      forall i | 0 <= i < |items| ensures KeysSorted(items[i]) && NoEmptyInside(items[i]) {
        NormalShape(key, items[i]);
      }
    case _ =>
  }

  lemma NormTextIdempotent(key: string, s: string)
    ensures NormText(key, NormText(key, s)) == NormText(key, s)
  {
    var clean := Clean(s, NotSpace);
    CleanIdempotent(s, NotSpace);
    if IsStateKey(key) {
      CleanOfUpper(clean);
      UpperIdempotent(clean);
    } else if IsCodeKey(key) {
      CleanOfSolid(Only(clean, IsAlnum));
    }
  }

  lemma {:induction false} UpperIdempotent(s: string)
    ensures Upper(Upper(s)) == Upper(s)
  {
  }

  // A text without white space is its own only word.
  lemma CleanOfSolid(s: string)
    requires AllOf(s, IsAlnum)
    ensures Clean(s, NotSpace) == s
  {
    if s != "" {
      RunLengthIs(s, NotSpace, |s|);
      assert s[..|s|] == s && s[|s|..] == "";
      assert Words(s, NotSpace) == [s];
    }
  }

  lemma RunOfUpper(s: string)
    ensures RunLength(Upper(s), NotSpace) == RunLength(s, NotSpace)
  {
    var n := RunLength(s, NotSpace);
    forall i | 0 <= i < n ensures NotSpace(Upper(s)[..n][i]) {
      assert NotSpace(s[..n][i]);
    }
    RunLengthIs(Upper(s), NotSpace, n);
  }

  lemma UpperOfParts(s: string, n: nat)
    requires n <= |s|
    ensures Upper(s)[..n] == Upper(s[..n]) && Upper(s)[n..] == Upper(s[n..])
  {
  }

  // Changing the case of letters moves no word boundary.
  lemma {:induction false} WordsOfUpper(s: string)
    ensures |Words(Upper(s), NotSpace)| == |Words(s, NotSpace)|
    ensures forall i :: 0 <= i < |Words(s, NotSpace)| ==> Words(Upper(s), NotSpace)[i] == Upper(Words(s, NotSpace)[i])
    decreases |s|
  {
    hide AllOf, RunLength, Upper;
    if s != "" {
      assert IsSpace(Upper(s)[0]) <==> IsSpace(s[0]);
      var n := RunLength(s, NotSpace);
      RunOfUpper(s);
      UpperOfParts(s, 1);
      UpperOfParts(s, n);
      WordsOfUpper(if IsSpace(s[0]) then s[1..] else s[n..]);
    }
  }

  lemma {:induction false} JoinOfUpper(ws: seq<string>, us: seq<string>)
    requires |us| == |ws| && forall i :: 0 <= i < |ws| ==> us[i] == Upper(ws[i])
    ensures Join(us) == Upper(Join(ws))
  {
    if |ws| > 1 {
      JoinOfUpper(ws[1..], us[1..]);
    }
  }

  lemma CleanOfUpper(s: string)
    ensures Clean(Upper(s), NotSpace) == Upper(Clean(s, NotSpace))
  {
    WordsOfUpper(s);
    JoinOfUpper(Words(s, NotSpace), Words(Upper(s), NotSpace));
  }

  // ------------------------------------------------------------ Norm is a projection

  ghost predicate GoodEntries(xs: seq<Keyed<Json>>) {
    forall x :: x in xs ==> !IsEmptyValue(x.value) && WellFormed(x.value) && Normal(x.key, x.value)
  }

  ghost predicate GoodTagged(key: string, xs: seq<Keyed<Json>>) {
    forall x :: x in xs ==> x == Tagged(x.value) && !IsEmptyValue(x.value) && WellFormed(x.value) && Normal(key, x.value)
  }

  lemma {:induction false} NormIsNormal(key: string, v: Json)
    requires WellFormed(v)
    ensures WellFormed(Norm(key, v)) && Normal(key, Norm(key, v))
    decreases v, 0
  {
    match v
    case Obj(es) =>
      NormEntriesGood(es);
      NormEntriesDistinct(es);
      ObjIsNormal(key, NormEntries(es));
    case Arr(items) =>
      NormItemsGood(key, items);
      ArrIsNormal(key, NormItems(key, items));
    case Str(s) => NormTextIdempotent(key, s);
    case _ =>
  }

  lemma ObjIsNormal(key: string, xs: seq<Keyed<Json>>)
    requires GoodEntries(xs) && DistinctKeys(xs)
    ensures WellFormed(Obj(Sort(xs))) && Normal(key, Obj(Sort(xs)))
  {
    hide Leq, Sort, IsEmptyValue;
    SortSorts(xs);
    SameMembers(Sort(xs), xs);
    DistinctKeysPermute(xs, Sort(xs));
  }

  lemma ArrIsNormal(key: string, unsorted: seq<Keyed<Json>>)
    requires GoodTagged(key, unsorted)
    ensures WellFormed(Arr(Values(Sort(unsorted)))) && Normal(key, Arr(Values(Sort(unsorted))))
  {
    hide Leq, Sort, IsEmptyValue, Dumps;
    var xs := Sort(unsorted);
    SortSorts(unsorted);
    SameMembers(xs, unsorted);
    var vs := Values(xs);
    forall i, j | 0 <= i < j < |vs| ensures Leq(Dumps(vs[i], SPACED), Dumps(vs[j], SPACED)) {
      assert xs[i] in xs && xs[j] in xs;
      assert Leq(xs[i].key, xs[j].key);
    }
    forall i | 0 <= i < |vs| ensures !IsEmptyValue(vs[i]) && Normal(key, vs[i]) && WellFormed(vs[i]) {
      assert xs[i] in xs;
    }
  }

  // What one item, or one entry, contributes.
  function NormItem(key: string, v: Json): seq<Keyed<Json>> {
    if IsEmptyValue(Norm(key, v)) then [] else [Tagged(Norm(key, v))]
  }

  function NormEntry(e: Keyed<Json>): seq<Keyed<Json>> {
    if IsEmptyValue(Norm(e.key, e.value)) then [] else [Keyed(e.key, Norm(e.key, e.value))]
  }

  lemma NormEntriesStep(es: seq<Keyed<Json>>)
    requires es != []
    ensures NormEntries(es) == NormEntry(es[0]) + NormEntries(es[1..])
  {
    hide Norm, IsEmptyValue;
  }

  // Normal entries keep the keys of the entries they come from.
  lemma {:induction false} NormEntriesKeys(es: seq<Keyed<Json>>, x: Keyed<Json>)
    requires x in NormEntries(es)
    ensures exists i :: 0 <= i < |es| && es[i].key == x.key
  {
    hide Norm, IsEmptyValue;
    NormEntriesStep(es);
    if x in NormEntry(es[0]) {
      assert es[0].key == x.key;
    } else {
      NormEntriesKeys(es[1..], x);
      var i :| 0 <= i < |es[1..]| && es[1..][i].key == x.key;
      assert es[i + 1].key == x.key;
    }
  }

  lemma {:induction false} NormEntriesDistinct(es: seq<Keyed<Json>>)
    requires DistinctKeys(es)
    ensures DistinctKeys(NormEntries(es))
  {
    hide Norm, IsEmptyValue, NormEntries;
    if es == [] {
      NoNormEntries();
    } else {
      NormEntriesStep(es);
      NormEntriesDistinct(es[1..]);
      var rest := NormEntries(es[1..]);
      forall j | 0 <= j < |rest| ensures rest[j].key != es[0].key {
        NormEntriesKeys(es[1..], rest[j]);
        var k :| 0 <= k < |es[1..]| && es[1..][k].key == rest[j].key;
        assert es[k + 1] == es[1..][k];
      }
    }
  }

  lemma NoNormEntries()
    ensures NormEntries([]) == []
  {
  }

  lemma {:induction false} NormEntriesGood(es: seq<Keyed<Json>>)
    requires DistinctKeys(es) && forall i :: 0 <= i < |es| ==> WellFormed(es[i].value)
    ensures GoodEntries(NormEntries(es))
    decreases es, 0
  {
    hide Norm, IsEmptyValue, Normal, WellFormed, NormEntries;
    if es == [] {
      NoNormEntries();
    } else {
      NormEntriesStep(es);
      NormIsNormal(es[0].key, es[0].value);
      NormEntriesGood(es[1..]);
    }
  }

  lemma {:induction false} NormItemsGood(key: string, items: seq<Json>)
    requires forall i :: 0 <= i < |items| ==> WellFormed(items[i])
    ensures GoodTagged(key, NormItems(key, items))
    decreases items, 0
  {
    if items != [] {
      NormIsNormal(key, items[0]);
      NormItemsGood(key, items[1..]);
    }
  }

  lemma {:induction false} NormOfNormal(key: string, v: Json)
    requires Normal(key, v)
    ensures Norm(key, v) == v
    decreases v, 0
  {
    match v
    case Obj(es) =>
      NormEntriesOfNormal(es);
      SortOfSorted(es);
    case Arr(items) =>
      NormItemsOfNormal(key, items);
      var xs := NormItems(key, items);
      SortOfSorted(xs);
      assert Values(xs) == items;
    case _ =>
  }

  lemma {:induction false} NormEntriesOfNormal(es: seq<Keyed<Json>>)
    requires forall i :: 0 <= i < |es| ==> !IsEmptyValue(es[i].value) && Normal(es[i].key, es[i].value)
    ensures NormEntries(es) == es
    decreases es, 0
  {
    if es != [] {
      NormOfNormal(es[0].key, es[0].value);
      NormEntriesOfNormal(es[1..]);
    }
  }

  lemma {:induction false} NormItemsOfNormal(key: string, items: seq<Json>)
    requires forall i :: 0 <= i < |items| ==> !IsEmptyValue(items[i]) && Normal(key, items[i])
    ensures |NormItems(key, items)| == |items|
    ensures forall i :: 0 <= i < |items| ==> NormItems(key, items)[i] == Tagged(items[i])
    decreases items, 0
  {
    if items != [] {
      NormOfNormal(key, items[0]);
      NormItemsOfNormal(key, items[1..]);
    }
  }

  /** Normalising is a projection: the values it leaves alone are exactly the normal ones. */
  lemma NormFixesExactlyNormal(key: string, v: Json)
    requires WellFormed(v)
    ensures Norm(key, v) == v <==> Normal(key, v)
  {
    NormIsNormal(key, v);
    if Normal(key, v) {
      NormOfNormal(key, v);
    }
  }

  /** Normalisation is idempotent and leaves no empty value inside a mapping or a list. */
  lemma NormIdempotent(key: string, v: Json)
    requires WellFormed(v)
    ensures Norm(key, Norm(key, v)) == Norm(key, v)
    ensures NoEmptyInside(Norm(key, v)) && KeysSorted(Norm(key, v)) && WellFormed(Norm(key, v))
  {
    NormIsNormal(key, v);
    NormalShape(key, Norm(key, v));
    NormOfNormal(key, Norm(key, v));
  }

  // ------------------------------------------------- independence of the order written

  /** b is a with the keys of objects and the items of lists listed in another order, at any depth. */
  ghost predicate Rearranged(a: Json, b: Json)
    decreases a
  {
    match a
    case Arr(xs) => b.Arr? && exists ys :: multiset(ys) == multiset(b.items) && SameItems(xs, ys)
    case Obj(xs) => b.Obj? && exists ys :: multiset(ys) == multiset(b.entries) && SameEntries(xs, ys)
    case _ => a == b
  }

  ghost predicate SameItems(xs: seq<Json>, ys: seq<Json>)
    decreases xs, 0
  {
    |xs| == |ys| && forall i :: 0 <= i < |xs| ==> Rearranged(xs[i], ys[i])
  }

  ghost predicate SameEntries(xs: seq<Keyed<Json>>, ys: seq<Keyed<Json>>)
    decreases xs, 0
  {
    |xs| == |ys| && forall i :: 0 <= i < |xs| ==> xs[i].key == ys[i].key && Rearranged(xs[i].value, ys[i].value)
  }

  lemma NormItemsPermute(key: string, xs: seq<Json>, ys: seq<Json>)
    requires multiset(xs) == multiset(ys)
    ensures multiset(NormItems(key, xs)) == multiset(NormItems(key, ys))
  {
    hide Norm, IsEmptyValue, Tagged;
    ConcatMapPermute((items: seq<Json>) => NormItems(key, items), (v: Json) => NormItem(key, v), xs, ys);
  }

  lemma NormEntriesPermute(xs: seq<Keyed<Json>>, ys: seq<Keyed<Json>>)
    requires multiset(xs) == multiset(ys)
    ensures multiset(NormEntries(xs)) == multiset(NormEntries(ys))
  {
    hide Norm, IsEmptyValue;
    ConcatMapPermute(NormEntries, NormEntry, xs, ys);
  }

  // The sort text of a normal item decides the item.
  lemma TagsDecide(key: string, xs: seq<Keyed<Json>>)
    requires GoodTagged(key, xs)
    ensures KeyDecides(xs)
  {
    forall x, y | x in xs && y in xs && x.key == y.key ensures x == y {
      NormalShape(key, x.value);
      NormalShape(key, y.value);
      SortedDumpsDecide(x.value, y.value, SPACED);
    }
  }

  /** Equivalent filters, however their keys and lists are ordered, have one normal form. */
  lemma {:induction false} NormForgetsOrder(key: string, a: Json, b: Json)
    requires WellFormed(a) && WellFormed(b) && Rearranged(a, b)
    ensures Norm(key, a) == Norm(key, b)
    decreases a, 0
  {
    hide Sort, IsEmptyValue, NormText;
    match a
    case Arr(xs) =>
      var ys :| multiset(ys) == multiset(b.items) && SameItems(xs, ys);
      SameMembers(ys, b.items);
      NormItemsForget(key, xs, ys);
      NormItemsPermute(key, ys, b.items);
      NormItemsGood(key, xs);
      TagsDecide(key, NormItems(key, xs));
      SortIsCanonical(NormItems(key, xs), NormItems(key, b.items));
    case Obj(xs) =>
      var ys :| multiset(ys) == multiset(b.entries) && SameEntries(xs, ys);
      SameMembers(ys, b.entries);
      NormEntriesForget(xs, ys);
      NormEntriesPermute(ys, b.entries);
      NormEntriesDistinct(xs);
      DistinctKeysPermute(NormEntries(xs), NormEntries(b.entries));
      SortIsCanonical(NormEntries(xs), NormEntries(b.entries));
    case _ =>
  }

  lemma {:induction false} NormItemsForget(key: string, xs: seq<Json>, ys: seq<Json>)
    requires SameItems(xs, ys) && GoodItems(xs) && forall y :: y in ys ==> WellFormed(y)
    ensures NormItems(key, xs) == NormItems(key, ys)
    decreases xs, 0
  {
    if xs != [] {
      assert ys[0] in ys;
      NormForgetsOrder(key, xs[0], ys[0]);
      NormItemsForget(key, xs[1..], ys[1..]);
    }
  }

  lemma {:induction false} NormEntriesForget(xs: seq<Keyed<Json>>, ys: seq<Keyed<Json>>)
    requires SameEntries(xs, ys) && GoodValues(xs) && forall y :: y in ys ==> WellFormed(y.value)
    ensures NormEntries(xs) == NormEntries(ys)
    decreases xs, 0
  {
    if xs != [] {
      assert ys[0] in ys;
      NormForgetsOrder(xs[0].key, xs[0].value, ys[0].value);
      NormEntriesForget(xs[1..], ys[1..]);
    }
  }

  // ----------------------------------------------------------------- fingerprints

  function Envelope(filters: Json, schemaVersion: nat): Json {
    Obj([Keyed("schema_version", Num(NatToken(schemaVersion))), Keyed("filters", Norm("", filters))])
  }

  // `fingerprint_filters`, before the digest
  function Fingerprint(filters: Json, schemaVersion: nat): string {
    Dumps(Envelope(filters, schemaVersion), COMPACT)
  }

  // The same envelope with its keys in order.
  function SortedEnvelope(filters: Json, schemaVersion: nat): Json {
    Obj([Keyed("filters", Norm("", filters)), Keyed("schema_version", Num(NatToken(schemaVersion)))])
  }

  lemma FingerprintOfSorted(filters: Json, schemaVersion: nat)
    requires WellFormed(filters)
    ensures WellFormed(SortedEnvelope(filters, schemaVersion)) && KeysSorted(SortedEnvelope(filters, schemaVersion))
    ensures Fingerprint(filters, schemaVersion) == Dumps(SortedEnvelope(filters, schemaVersion), COMPACT)
  {
    var n := Norm("", filters);
    NormIdempotent("", filters);
    var version, inner := Keyed("schema_version", Num(NatToken(schemaVersion))), Keyed("filters", n);
    assert Leq("filters", "schema_version") && !Leq("schema_version", "filters");
    SortKeysEntriesOfSorted([version, inner]);
    SortPair(version, inner);
    SortKeysOfSorted(SortedEnvelope(filters, schemaVersion));
  }

  /** Two filters share a fingerprint exactly when they have one normal form and one schema version. */
  lemma FingerprintIff(f: Json, g: Json, v: nat, w: nat)
    requires WellFormed(f) && WellFormed(g)
    ensures Fingerprint(f, v) == Fingerprint(g, w) <==> Norm("", f) == Norm("", g) && v == w
  {
    FingerprintOfSorted(f, v);
    FingerprintOfSorted(g, w);
    if Fingerprint(f, v) == Fingerprint(g, w) {
      var a, b := SortedEnvelope(f, v), SortedEnvelope(g, w);
      SortedDumpsDecide(a, b, COMPACT);
      assert a.entries[0] == b.entries[0] && a.entries[1] == b.entries[1];
      NatTokenDecides(v, w);
    }
  }

  // ------------------------------------------------------------------- coverage scopes

  datatype Target = Industry | Partner {
    function Name(): string {
      if Industry? then "INDUSTRY" else "PARTNER"
    }
  }

  // A saved query: `normalized_filters` is derived from the filters on save.
  datatype Query = Query(target: Target, filters: Json, schemaVersion: nat) {
    ghost predicate Valid() {
      filters.Obj? && WellFormed(filters)
    }

    function NormalizedFilters(): Json {
      Norm("", filters)
    }
  }

  function Scope(q: Query): Json {
    Obj([Keyed("entity_target", Str(q.target.Name())),
         Keyed("filters", q.NormalizedFilters()),
         Keyed("schema_version", Num(NatToken(q.schemaVersion)))])
  }

  function ScopeHash(q: Query): string {
    Fingerprint(Scope(q), QUERY_SCHEMA_VERSION)
  }

  lemma TargetNameIsNormal(t: Target)
    ensures NormText("entity_target", t.Name()) == t.Name()
  {
    CleanOfSolid(t.Name());
  }

  lemma NormEntriesCons(e: Keyed<Json>, es: seq<Keyed<Json>>)
    requires Norm(e.key, e.value) == e.value
    ensures NormEntries([e] + es) == (if IsEmptyValue(e.value) then [] else [e]) + NormEntries(es)
  {
    assert ([e] + es)[1..] == es;
  }

  // A normalised scope: only empty filters are dropped.
  function ScopeNormal(target: Target, n: Json, version: nat): Json {
    Obj([Keyed("entity_target", Str(target.Name()))]
        + (if IsEmptyValue(n) then [] else [Keyed("filters", n)])
        + [Keyed("schema_version", Num(NatToken(version)))])
  }

  // Three entries whose values are normal already.
  lemma NormEntriesOfThree(a: Keyed<Json>, b: Keyed<Json>, c: Keyed<Json>)
    requires Norm(a.key, a.value) == a.value && Norm(b.key, b.value) == b.value && Norm(c.key, c.value) == c.value
    requires !IsEmptyValue(a.value) && !IsEmptyValue(c.value)
    ensures NormEntries([a, b, c]) == [a] + (if IsEmptyValue(b.value) then [] else [b]) + [c]
  {
    NormEntriesCons(c, []);
    NormEntriesCons(b, [c]);
    NormEntriesCons(a, [b, c]);
    assert [a, b, c] == [a] + [b, c] && [b, c] == [b] + [c] && [c] == [c] + [];
  }

  lemma ScopeNormalSorted(t: Target, n: Json, v: nat)
    ensures Sorted(ScopeNormal(t, n, v).entries)
  {
    assert Leq("entity_target", "filters") && Leq("filters", "schema_version") && Leq("entity_target", "schema_version");
  }

  lemma NormOfScope(q: Query)
    requires q.Valid()
    ensures WellFormed(Scope(q)) && Norm("", Scope(q)) == ScopeNormal(q.target, q.NormalizedFilters(), q.schemaVersion)
  {
    hide Sort, NormText, Dumps, Sorted, Leq, NormEntries;
    var n := q.NormalizedFilters();
    NormIdempotent("", q.filters);
    TargetNameIsNormal(q.target);
    assert Norm("filters", n) == Norm("", n);
    NormEntriesOfThree(Scope(q).entries[0], Scope(q).entries[1], Scope(q).entries[2]);
    ScopeNormalSorted(q.target, n, q.schemaVersion);
    SortOfSorted(ScopeNormal(q.target, n, q.schemaVersion).entries);
  }

  lemma ScopeNormalDecides(t: Target, m: Json, v: nat, u: Target, n: Json, w: nat)
    requires m.Obj? && n.Obj? && ScopeNormal(t, m, v) == ScopeNormal(u, n, w)
    ensures t == u && m == n && v == w
  {
    var x, y := ScopeNormal(t, m, v).entries, ScopeNormal(u, n, w).entries;
    assert x[0] == y[0] && x[|x| - 1] == y[|y| - 1];
    assert t.Name()[0] == u.Name()[0];
    NatTokenDecides(v, w);
    assert x[1] == y[1];
  }

  /**
   Coverage scopes are equal exactly for queries with the same target, the same
   normal filters and the same schema version, although the scope is normalised again.
   */
  lemma ScopeHashIff(p: Query, q: Query)
    requires p.Valid() && q.Valid()
    ensures ScopeHash(p) == ScopeHash(q) <==>
            p.target == q.target && p.NormalizedFilters() == q.NormalizedFilters() && p.schemaVersion == q.schemaVersion
  {
    NormOfScope(p);
    NormOfScope(q);
    FingerprintIff(Scope(p), Scope(q), QUERY_SCHEMA_VERSION, QUERY_SCHEMA_VERSION);
    if ScopeHash(p) == ScopeHash(q) {
      ScopeNormalDecides(p.target, p.NormalizedFilters(), p.schemaVersion, q.target, q.NormalizedFilters(), q.schemaVersion);
    }
  }

  /** Queries that differ only in how their filters are ordered share fingerprint and scope. */
  lemma EquivalentQueriesShare(p: Query, q: Query)
    requires p.Valid() && q.Valid() && Rearranged(p.filters, q.filters)
    requires p.target == q.target && p.schemaVersion == q.schemaVersion
    ensures Fingerprint(p.filters, p.schemaVersion) == Fingerprint(q.filters, q.schemaVersion)
    ensures ScopeHash(p) == ScopeHash(q)
  {
    NormForgetsOrder("", p.filters, q.filters);
    FingerprintIff(p.filters, q.filters, p.schemaVersion, q.schemaVersion);
    ScopeHashIff(p, q);
  }
}
