/**
 The idempotent upserts of the CNPJ ingestion.  Timestamps are left out; a company is
 identified by its CNPJ, and its columns are split by who writes them: the
 establishment columns in `companies`, the complement columns in `registry`.
 */
module Ingestion {
  import opened Basics
  import opened Text
  import opened Numbers
  import opened Establishments
  import opened Complements

  type Cnpj = string
  type RunId = nat
  type Fields = map<string, string>

  datatype Payload =
    | EstablishmentPayload(e: Establishment)
    | CompanyPayload(record: Record)
    | SimplesPayload(record: Record)

  // (external_id, payload): the payload hash is taken to be injective.
  type RecordKey = (Cnpj, Payload)

  datatype SourceRecord = SourceRecord(company: Cnpj, run: RunId, observations: Fields)

  datatype Cnae = Cnae(isPrimary: bool, source: RecordKey)

  datatype Candidate = Candidate(basico: string, payload: Establishment, company: Option<Cnpj>)

  datatype Db = Db(
    companies: map<Cnpj, Fields>,
    registry: map<Cnpj, Fields>,
    cnaes: map<(Cnpj, string), Cnae>,
    records: map<RecordKey, SourceRecord>,
    results: map<(RunId, Cnpj), bool>,
    candidates: map<(RunId, Cnpj), Candidate>,
    companyPayloads: map<(RunId, Cnpj), Record>,
    simplesPayloads: map<(RunId, Cnpj), Record>)

  // ------------------------------------------------------------------ field values

  function RegistrationStatus(code: string): string {
    if code == "02" then "ACTIVE" else if code == "03" then "SUSPENDED" else "INACTIVE"
  }

  const ESTABLISHMENT_FIELDS: set<string> :=
    {"trade_name", "company_type", "registration_status", "street_type", "street", "number", "complement",
     "district", "municipality_code", "state", "postal_code", "phone", "email"}

  function CanonicalFields(e: Establishment): (m: Fields)
    ensures m.Keys == ESTABLISHMENT_FIELDS
  {
    map["trade_name" := e.tradeName, "company_type" := "INDUSTRY",
        "registration_status" := RegistrationStatus(e.registrationStatus),
        "street_type" := e.streetType, "street" := e.street, "number" := e.number,
        "complement" := e.complement, "district" := e.district,
        "municipality_code" := e.municipalityCode, "state" := e.state,
        "postal_code" := e.postalCode, "phone" := e.phone, "email" := e.email]
  }

  // Last non-empty value wins.
  function Merge(base: Fields, update: Fields): Fields {
    map f | f in base.Keys + update.Keys && (f in base || update[f] != "") ::
      if f in update && update[f] != "" then update[f] else base[f]
  }

  function NonEmpty(m: Fields): Fields {
    map f | f in m && m[f] != "" :: m[f]
  }

  predicate NotDot(c: char) {
    c != '.'
  }

  function CommasToDots(s: string): (r: string)
    ensures |r| == |s| && forall i :: 0 <= i < |s| ==> r[i] == if s[i] == ',' then '.' else s[i]
  {
    if s == "" then "" else [if s[0] == ',' then '.' else s[0]] + CommasToDots(s[1..])
  }

  // `_decimal_from_receita`: the decimal text, "" for None, or an error; saving refuses what is not finite.
  function ShareCapital(value: string): Result<string, ()> {
    var text := CapitalText(Strip(value));
    if text == "" || NumberOf(text).Finite? then Ok(text) else Err(())
  }

  function CompanyFields(r: Record): Option<Fields>
    requires |r| == COMPLEMENT_COLUMN_COUNT
  {
    match ShareCapital(r[4])
    case Err(_) => None
    case Ok(capital) => Some(map["legal_name" := r[1], "legal_nature_code" := r[2], "share_capital" := capital, "size_code" := r[5]])
  }

  // The text the capital column is read from.
  function CapitalText(s: string): string {
    CommasToDots(Only(s, NotDot))
  }

  lemma DotsOfPieces(x: string, y: string)
    ensures CommasToDots(x + y) == CommasToDots(x) + CommasToDots(y)
  {
    hide CommasToDots;
  }

  lemma NothingToReplace(x: string)
    requires forall i :: 0 <= i < |x| ==> x[i] != '.' && x[i] != ','
    ensures CapitalText(x) == x
  {
    hide CommasToDots, Only;
    assert AllOf(x, NotDot);
    assert CommasToDots(x) == x;
  }

  /** Points are dropped and commas become points, piece by piece; nothing else is touched. */
  lemma CapitalOfPieces(x: string, y: string)
    ensures CapitalText(x + y) == CapitalText(x) + CapitalText(y)
    ensures CapitalText(".") == "" && CapitalText(",") == "."
    ensures (forall i :: 0 <= i < |x| ==> x[i] != '.' && x[i] != ',') ==> CapitalText(x) == x
  {
    hide CommasToDots, Only;
    OnlyOfPieces(x, y, NotDot, '.');
    DotsOfPieces(Only(x, NotDot), Only(y, NotDot));
    PointAndComma();
    if forall i :: 0 <= i < |x| ==> x[i] != '.' && x[i] != ',' {
      NothingToReplace(x);
    }
  }

  lemma PointAndComma()
    ensures CapitalText(".") == "" && CapitalText(",") == "."
  {
    assert Only(".", NotDot) == "" && Only(",", NotDot) == ",";
  }

  /** A capital written with thousands points and a decimal comma is stored as the decimal it stands for. */
  lemma CapitalReads(a: string, b: string, cents: string)
    requires AreDigits(a) && AreDigits(b) && AreDigits(cents) && a != "" && b + cents != ""
    ensures ShareCapital(a + "." + b + "," + cents) == Ok(a + b + "." + cents)
    ensures NumberOf(a + b + "." + cents) == Finite(DecimalOf(a + b, cents))
  {
    hide Only, CommasToDots, NumberOf, DecimalOf;
    var value := a + "." + b + "," + cents;
    NothingToStrip(value);
    CapitalOfPieces(a + "." + b + ",", cents);
    CapitalOfPieces(a + "." + b, ",");
    CapitalOfPieces(a + ".", b);
    CapitalOfPieces(a, ".");
    CapitalOfPieces(b, "");
    CapitalOfPieces(cents, "");
    assert CapitalText(value) == a + "" + b + "." + cents;
    assert a + "" + b == a + b;
    assert AreDigits(a + b);
    ReadsDecimals(a + b, cents, false);
    assert "" + (a + b + "." + cents) == a + b + "." + cents;
  }

  // numeric(18, 2) rounds to two decimals and holds what is then below 10 to the 16.
  const CAPITAL_LIMIT: real := 9999999999999999.995

  predicate CapitalFits(text: string) {
    text == "" || (NumberOf(text).Finite? && -CAPITAL_LIMIT < NumberOf(text).value < CAPITAL_LIMIT)
  }

  predicate NoNulIn(r: Record) {
    forall i :: 0 <= i < |r| ==> NoNul(r[i])
  }

  // The columns of a company record; its texts are kept as JSON as well.
  predicate CompanyRecordFits(r: Record)
    requires |r| == COMPLEMENT_COLUMN_COUNT
  {
    && ShareCapital(r[4]).Ok? && CapitalFits(ShareCapital(r[4]).value)
    && |r[1]| <= 255 && |r[2]| <= 8 && |r[5]| <= 8 && NoNulIn(r)
  }

  function CompanyObservations(r: Record, fields: Fields): Fields
    requires |r| == COMPLEMENT_COLUMN_COUNT
  {
    NonEmpty(fields["responsible_qualification" := r[3]]["responsible_federative_entity" := r[6]])
  }

  function SimplesObservations(r: Record): Fields
    requires |r| == COMPLEMENT_COLUMN_COUNT
  {
    NonEmpty(map["simples_option" := r[1], "simples_option_on" := r[2], "simples_excluded_on" := r[3],
                 "mei_option" := r[4], "mei_option_on" := r[5], "mei_excluded_on" := r[6]])
  }

  // ------------------------------------------------------ one committed transaction

  // What one transaction of a discovery run ingests.
  datatype Op =
    | RowOp(e: Establishment)
    | CompanyOp(cnpj: Cnpj, record: Record, fields: Fields)
    | SimplesOp(cnpj: Cnpj, record: Record)

  function OpCnpj(x: Op): Cnpj {
    match x case RowOp(e) => e.Cnpj() case CompanyOp(c, _, _) => c case SimplesOp(c, _) => c
  }

  function OpKey(x: Op): RecordKey {
    (OpCnpj(x), match x
                case RowOp(e) => EstablishmentPayload(e)
                case CompanyOp(_, r, _) => CompanyPayload(r)
                case SimplesOp(_, r) => SimplesPayload(r))
  }

  // The observations stored with a new source record; they depend on its payload only.
  function PayloadObservations(p: Payload): Fields {
    match p
    case EstablishmentPayload(e) => NonEmpty(CanonicalFields(e))
    case CompanyPayload(r) =>
      if |r| == COMPLEMENT_COLUMN_COUNT && CompanyFields(r).Some? then CompanyObservations(r, CompanyFields(r).value) else map[]
    case SimplesPayload(r) => if |r| == COMPLEMENT_COLUMN_COUNT then SimplesObservations(r) else map[]
  }

  // What a row makes of one company.
  function CompanyAfter(c: Option<Fields>, fields: Fields): Fields {
    match c case None => fields case Some(m) => Merge(m, fields)
  }

  function UpsertCompany(m: map<Cnpj, Fields>, c: Cnpj, fields: Fields): map<Cnpj, Fields> {
    m[c := CompanyAfter(if c in m then Some(m[c]) else None, fields)]
  }

  function AfterCompanies(m: map<Cnpj, Fields>, x: Op): map<Cnpj, Fields> {
    if x.RowOp? then UpsertCompany(m, x.e.Cnpj(), CanonicalFields(x.e)) else m
  }

  function UpdateRegistry(m: map<Cnpj, Fields>, c: Cnpj, fields: Fields): map<Cnpj, Fields> {
    m[c := Merge(if c in m then m[c] else map[], fields)]
  }

  function AfterRegistry(m: map<Cnpj, Fields>, x: Op): map<Cnpj, Fields> {
    if x.CompanyOp? then UpdateRegistry(m, x.cnpj, x.fields) else m
  }

  function CodeSet(codes: seq<string>): set<string> {
    set i | 0 <= i < |codes| :: codes[i]
  }

  // The company's codes: mentioned ones point to source, and only the primary one is primary.
  function CnaesWith(m: map<(Cnpj, string), Cnae>, c: Cnpj, primary: string, codes: set<string>, source: RecordKey): map<(Cnpj, string), Cnae> {
    var mentioned := set code | code in codes + {primary} :: (c, code);
    map k | k in m.Keys + mentioned ::
      if k.0 != c then m[k]
      else if k.1 == primary || k.1 in codes then Cnae(k.1 == primary, source)
      else m[k].(isPrimary := false)
  }

  function AfterCnaes(m: map<(Cnpj, string), Cnae>, x: Op): map<(Cnpj, string), Cnae> {
    if x.RowOp? then CnaesWith(m, x.e.Cnpj(), x.e.primaryCnae, CodeSet(x.e.secondaryCnaes), OpKey(x)) else m
  }

  function AfterRecords(m: map<RecordKey, SourceRecord>, run: RunId, x: Op): map<RecordKey, SourceRecord> {
    var k := OpKey(x);
    if k in m then m else m[k := SourceRecord(k.0, run, PayloadObservations(k.1))]
  }

  // `get_or_create`: a result remembers whether its company was new.
  function AddResult(m: map<(RunId, Cnpj), bool>, existing: set<Cnpj>, run: RunId, c: Cnpj): map<(RunId, Cnpj), bool> {
    if (run, c) in m then m else m[(run, c) := c !in existing]
  }

  function AfterResults(m: map<(RunId, Cnpj), bool>, companies: map<Cnpj, Fields>, run: RunId, x: Op): map<(RunId, Cnpj), bool> {
    if x.RowOp? then AddResult(m, companies.Keys, run, x.e.Cnpj()) else m
  }

  function AfterCandidates(m: map<(RunId, Cnpj), Candidate>, run: RunId, x: Op): map<(RunId, Cnpj), Candidate> {
    if x.RowOp? then m[(run, x.e.Cnpj()) := Candidate(x.e.cnpjBasico, x.e, Some(x.e.Cnpj()))] else m
  }

  function AfterCompanyPayloads(m: map<(RunId, Cnpj), Record>, run: RunId, x: Op): map<(RunId, Cnpj), Record> {
    if x.CompanyOp? then m[(run, x.cnpj) := x.record] else m
  }

  function AfterSimplesPayloads(m: map<(RunId, Cnpj), Record>, run: RunId, x: Op): map<(RunId, Cnpj), Record> {
    if x.SimplesOp? then m[(run, x.cnpj) := x.record] else m
  }

  function Apply(db: Db, run: RunId, x: Op): Db {
    Db(AfterCompanies(db.companies, x),
       AfterRegistry(db.registry, x),
       AfterCnaes(db.cnaes, x),
       AfterRecords(db.records, run, x),
       AfterResults(db.results, db.companies, run, x),
       AfterCandidates(db.candidates, run, x),
       AfterCompanyPayloads(db.companyPayloads, run, x),
       AfterSimplesPayloads(db.simplesPayloads, run, x))
  }

  function ApplyAll(db: Db, run: RunId, xs: seq<Op>): Db
    decreases |xs|
  {
    if xs == [] then db else ApplyAll(Apply(db, run, xs[0]), run, xs[1..])
  }

  // ------------------------------------------- repeating a transaction later absorbs it

  lemma SameMap(a: Fields, b: Fields)
    requires forall f :: f in a <==> f in b
    requires forall f :: f in a && f in b ==> a[f] == b[f]
    ensures a == b
  {
  }

  lemma MergeAbsorbs(m: Fields, x: Fields, y: Fields)
    ensures Merge(Merge(Merge(m, x), y), x) == Merge(Merge(m, y), x)
  {
    SameMap(Merge(Merge(Merge(m, x), y), x), Merge(Merge(m, y), x));
  }

  lemma MergeFromNothing(x: Fields, y: Fields)
    requires x.Keys == y.Keys
    ensures Merge(Merge(x, y), x) == Merge(y, x)
  {
    SameMap(Merge(Merge(x, y), x), Merge(y, x));
  }

  lemma MergeTwice(m: Fields, x: Fields)
    ensures Merge(Merge(m, x), x) == Merge(m, x)
  {
    SameMap(Merge(Merge(m, x), x), Merge(m, x));
  }

  lemma MergeSelf(x: Fields)
    ensures Merge(x, x) == x
  {
    SameMap(Merge(x, x), x);
  }

  lemma CompanyAfterAbsorbs(c: Option<Fields>, x: Fields, y: Fields)
    requires x.Keys == y.Keys
    ensures CompanyAfter(Some(CompanyAfter(Some(CompanyAfter(c, x)), y)), x) == CompanyAfter(Some(CompanyAfter(c, y)), x)
    ensures CompanyAfter(Some(CompanyAfter(c, x)), x) == CompanyAfter(c, x)
  {
    match c
    case None =>
      MergeFromNothing(x, y);
      MergeSelf(x);
    case Some(m) =>
      MergeAbsorbs(m, x, y);
      MergeTwice(m, x);
  }

  lemma Overwrite<K, V>(m: map<K, V>, k: K, v: V, w: V)
    ensures m[k := v][k := w] == m[k := w]
  {
  }

  lemma OverwriteOther<K, V>(m: map<K, V>, k: K, v: V, l: K, w: V)
    requires k != l
    ensures m[k := v][l := w][k := v] == m[l := w][k := v]
  {
  }

  lemma UpsertAbsorbs(m: map<Cnpj, Fields>, c: Cnpj, x: Fields, d: Cnpj, y: Fields)
    requires x.Keys == y.Keys
    ensures UpsertCompany(UpsertCompany(UpsertCompany(m, c, x), d, y), c, x) == UpsertCompany(UpsertCompany(m, d, y), c, x)
    ensures UpsertCompany(UpsertCompany(m, c, x), c, x) == UpsertCompany(m, c, x)
  {
    var at := if c in m then Some(m[c]) else None;
    CompanyAfterAbsorbs(at, x, y);
    var v := CompanyAfter(at, x);
    Overwrite(m, c, v, v);
    if c == d {
      var w := CompanyAfter(at, y);
      Overwrite(m, c, v, CompanyAfter(Some(v), y));
      Overwrite(m, c, CompanyAfter(Some(v), y), CompanyAfter(Some(w), x));
      Overwrite(m, c, w, CompanyAfter(Some(w), x));
    } else {
      OverwriteOther(m, c, v, d, CompanyAfter(if d in m then Some(m[d]) else None, y));
    }
  }

  lemma CompaniesAbsorb(m: map<Cnpj, Fields>, x: Op, y: Op)
    ensures AfterCompanies(AfterCompanies(AfterCompanies(m, x), y), x) == AfterCompanies(AfterCompanies(m, y), x)
    ensures AfterCompanies(AfterCompanies(m, x), x) == AfterCompanies(m, x)
  {
    if x.RowOp? {
      var c, fx := x.e.Cnpj(), CanonicalFields(x.e);
      UpsertAbsorbs(m, c, fx, c, fx);
      if y.RowOp? {
        UpsertAbsorbs(m, c, fx, y.e.Cnpj(), CanonicalFields(y.e));
      }
    }
  }

  lemma UpdateAbsorbs(m: map<Cnpj, Fields>, c: Cnpj, x: Fields, d: Cnpj, y: Fields)
    ensures UpdateRegistry(UpdateRegistry(UpdateRegistry(m, c, x), d, y), c, x) == UpdateRegistry(UpdateRegistry(m, d, y), c, x)
    ensures UpdateRegistry(UpdateRegistry(m, c, x), c, x) == UpdateRegistry(m, c, x)
  {
    var at := if c in m then m[c] else map[];
    MergeAbsorbs(at, x, y);
    MergeTwice(at, x);
    var v := Merge(at, x);
    Overwrite(m, c, v, v);
    if c == d {
      var w := Merge(at, y);
      Overwrite(m, c, v, Merge(v, y));
      Overwrite(m, c, Merge(v, y), Merge(w, x));
      Overwrite(m, c, w, Merge(w, x));
    } else {
      OverwriteOther(m, c, v, d, Merge(if d in m then m[d] else map[], y));
    }
  }

  lemma RegistryAbsorbs(m: map<Cnpj, Fields>, x: Op, y: Op)
    ensures AfterRegistry(AfterRegistry(AfterRegistry(m, x), y), x) == AfterRegistry(AfterRegistry(m, y), x)
    ensures AfterRegistry(AfterRegistry(m, x), x) == AfterRegistry(m, x)
  {
    if x.CompanyOp? {
      UpdateAbsorbs(m, x.cnpj, x.fields, x.cnpj, x.fields);
      if y.CompanyOp? {
        UpdateAbsorbs(m, x.cnpj, x.fields, y.cnpj, y.fields);
      }
    }
  }

  // What a row makes of one CNAE of its own company.
  function CnaeAfter(row: Option<Cnae>, code: string, primary: string, codes: set<string>, source: RecordKey): Option<Cnae> {
    if code == primary || code in codes then Some(Cnae(code == primary, source))
    else match row case None => None case Some(r) => Some(r.(isPrimary := false))
  }

  function CnaeAt(m: map<(Cnpj, string), Cnae>, k: (Cnpj, string)): Option<Cnae> {
    if k in m then Some(m[k]) else None
  }

  lemma CnaesWithAt(m: map<(Cnpj, string), Cnae>, c: Cnpj, p: string, codes: set<string>, s: RecordKey, k: (Cnpj, string))
    ensures CnaeAt(CnaesWith(m, c, p, codes, s), k) == if k.0 == c then CnaeAfter(CnaeAt(m, k), k.1, p, codes, s) else CnaeAt(m, k)
  {
  }

  lemma SameCnaes(a: map<(Cnpj, string), Cnae>, b: map<(Cnpj, string), Cnae>)
    requires forall k :: CnaeAt(a, k) == CnaeAt(b, k)
    ensures a == b
  {
    forall k ensures (k in a <==> k in b) && (k in a ==> a[k] == b[k]) {
      assert CnaeAt(a, k) == CnaeAt(b, k);
    }
  }

  lemma CnaesWithAbsorbs(m: map<(Cnpj, string), Cnae>, c: Cnpj, p: string, xs: set<string>, s: RecordKey,
                         d: Cnpj, q: string, ys: set<string>, t: RecordKey)
    ensures CnaesWith(CnaesWith(CnaesWith(m, c, p, xs, s), d, q, ys, t), c, p, xs, s) == CnaesWith(CnaesWith(m, d, q, ys, t), c, p, xs, s)
    ensures CnaesWith(CnaesWith(m, c, p, xs, s), c, p, xs, s) == CnaesWith(m, c, p, xs, s)
  {
    var mx, my := CnaesWith(m, c, p, xs, s), CnaesWith(m, d, q, ys, t);
    var mxy := CnaesWith(mx, d, q, ys, t);
    var l, r, l2 := CnaesWith(mxy, c, p, xs, s), CnaesWith(my, c, p, xs, s), CnaesWith(mx, c, p, xs, s);
    forall k ensures CnaeAt(l, k) == CnaeAt(r, k) && CnaeAt(l2, k) == CnaeAt(mx, k) {
      CnaesWithAt(m, c, p, xs, s, k);
      CnaesWithAt(m, d, q, ys, t, k);
      CnaesWithAt(mx, d, q, ys, t, k);
      CnaesWithAt(mxy, c, p, xs, s, k);
      CnaesWithAt(my, c, p, xs, s, k);
      CnaesWithAt(mx, c, p, xs, s, k);
    }
    SameCnaes(l, r);
    SameCnaes(l2, mx);
  }

  lemma CnaesAbsorb(m: map<(Cnpj, string), Cnae>, x: Op, y: Op)
    ensures AfterCnaes(AfterCnaes(AfterCnaes(m, x), y), x) == AfterCnaes(AfterCnaes(m, y), x)
    ensures AfterCnaes(AfterCnaes(m, x), x) == AfterCnaes(m, x)
  {
    if x.RowOp? {
      var z := if y.RowOp? then y else x;
      CnaesWithAbsorbs(m, x.e.Cnpj(), x.e.primaryCnae, CodeSet(x.e.secondaryCnaes), OpKey(x),
                       z.e.Cnpj(), z.e.primaryCnae, CodeSet(z.e.secondaryCnaes), OpKey(z));
    }
  }

  lemma RecordsAbsorb(m: map<RecordKey, SourceRecord>, run: RunId, x: Op, y: Op)
    ensures AfterRecords(AfterRecords(AfterRecords(m, run, x), run, y), run, x) == AfterRecords(AfterRecords(m, run, y), run, x)
    ensures AfterRecords(AfterRecords(m, run, x), run, x) == AfterRecords(m, run, x)
  {
  }

  lemma AddResultAbsorbs(m: map<(RunId, Cnpj), bool>, existing: set<Cnpj>, run: RunId, c: Cnpj, d: Cnpj)
    ensures AddResult(AddResult(AddResult(m, existing, run, c), existing + {c}, run, d), existing + {c} + {d}, run, c)
         == AddResult(AddResult(m, existing, run, d), existing + {d}, run, c)
    ensures AddResult(AddResult(m, existing, run, c), existing + {c}, run, c) == AddResult(m, existing, run, c)
  {
  }

  lemma CompanyKeys(companies: map<Cnpj, Fields>, x: Op)
    ensures AfterCompanies(companies, x).Keys == companies.Keys + if x.RowOp? then {x.e.Cnpj()} else {}
  {
  }

  lemma ResultsAbsorb(m: map<(RunId, Cnpj), bool>, companies: map<Cnpj, Fields>, run: RunId, x: Op, y: Op)
    ensures AfterResults(AfterResults(AfterResults(m, companies, run, x), AfterCompanies(companies, x), run, y),
                         AfterCompanies(AfterCompanies(companies, x), y), run, x)
         == AfterResults(AfterResults(m, companies, run, y), AfterCompanies(companies, y), run, x)
    ensures AfterResults(AfterResults(m, companies, run, x), AfterCompanies(companies, x), run, x) == AfterResults(m, companies, run, x)
  {
    hide AfterCompanies;
    CompanyKeys(companies, x);
    CompanyKeys(companies, y);
    CompanyKeys(AfterCompanies(companies, x), y);
    if x.RowOp? {
      AddResultAbsorbs(m, companies.Keys, run, x.e.Cnpj(), if y.RowOp? then y.e.Cnpj() else x.e.Cnpj());
    }
  }

  lemma StagingAbsorbs(db: Db, run: RunId, x: Op, y: Op)
    ensures AfterCandidates(AfterCandidates(AfterCandidates(db.candidates, run, x), run, y), run, x)
         == AfterCandidates(AfterCandidates(db.candidates, run, y), run, x)
    ensures AfterCompanyPayloads(AfterCompanyPayloads(AfterCompanyPayloads(db.companyPayloads, run, x), run, y), run, x)
         == AfterCompanyPayloads(AfterCompanyPayloads(db.companyPayloads, run, y), run, x)
    ensures AfterSimplesPayloads(AfterSimplesPayloads(AfterSimplesPayloads(db.simplesPayloads, run, x), run, y), run, x)
         == AfterSimplesPayloads(AfterSimplesPayloads(db.simplesPayloads, run, y), run, x)
    ensures AfterCandidates(AfterCandidates(db.candidates, run, x), run, x) == AfterCandidates(db.candidates, run, x)
    ensures AfterCompanyPayloads(AfterCompanyPayloads(db.companyPayloads, run, x), run, x) == AfterCompanyPayloads(db.companyPayloads, run, x)
    ensures AfterSimplesPayloads(AfterSimplesPayloads(db.simplesPayloads, run, x), run, x) == AfterSimplesPayloads(db.simplesPayloads, run, x)
  {
  }

  /** Committing x again later makes its earlier commit invisible. */
  lemma LaterAbsorbsEarlier(db: Db, run: RunId, x: Op, y: Op)
    ensures Apply(Apply(Apply(db, run, x), run, y), run, x) == Apply(Apply(db, run, y), run, x)
  {
    hide AfterCompanies, AfterRegistry, AfterCnaes, AfterRecords, AfterResults, AfterCandidates, AfterCompanyPayloads,
         AfterSimplesPayloads;
    CompaniesAbsorb(db.companies, x, y);
    RegistryAbsorbs(db.registry, x, y);
    CnaesAbsorb(db.cnaes, x, y);
    RecordsAbsorb(db.records, run, x, y);
    ResultsAbsorb(db.results, db.companies, run, x, y);
    StagingAbsorbs(db, run, x, y);
  }

  lemma ApplyTwice(db: Db, run: RunId, x: Op)
    ensures Apply(Apply(db, run, x), run, x) == Apply(db, run, x)
  {
    hide AfterCompanies, AfterRegistry, AfterCnaes, AfterRecords, AfterResults, AfterCandidates, AfterCompanyPayloads,
         AfterSimplesPayloads;
    CompaniesAbsorb(db.companies, x, x);
    RegistryAbsorbs(db.registry, x, x);
    CnaesAbsorb(db.cnaes, x, x);
    RecordsAbsorb(db.records, run, x, x);
    ResultsAbsorb(db.results, db.companies, run, x, x);
    StagingAbsorbs(db, run, x, x);
  }

  lemma {:induction false} ApplyAllAppend(db: Db, run: RunId, xs: seq<Op>, ys: seq<Op>)
    ensures ApplyAll(db, run, xs + ys) == ApplyAll(ApplyAll(db, run, xs), run, ys)
    decreases |xs|
  {
    hide Apply;
    if xs == [] {
      assert xs + ys == ys;
    } else {
      assert (xs + ys)[1..] == xs[1..] + ys;
      ApplyAllAppend(Apply(db, run, xs[0]), run, xs[1..], ys);
    }
  }

  lemma {:induction false} AbsorbedByWord(db: Db, run: RunId, x: Op, us: seq<Op>)
    ensures ApplyAll(Apply(db, run, x), run, us + [x]) == ApplyAll(db, run, us + [x])
    decreases |us|
  {
    hide Apply;
    if us == [] {
      ApplyTwice(db, run, x);
      assert us + [x] == [x] && [x][1..] == [];
    } else {
      var y, rest := us[0], us[1..];
      assert (us + [x])[1..] == rest + [x];
      var dxy, dy := Apply(Apply(db, run, x), run, y), Apply(db, run, y);
      AbsorbedByWord(dxy, run, x, rest);
      AbsorbedByWord(dy, run, x, rest);
      LaterAbsorbsEarlier(db, run, x, y);
    }
  }

  lemma {:induction false} WordAbsorbsItself(db: Db, run: RunId, p: seq<Op>)
    ensures ApplyAll(ApplyAll(db, run, p), run, p) == ApplyAll(db, run, p)
    decreases |p|
  {
    hide Apply;
    if p != [] {
      var q, x := p[..|p| - 1], p[|p| - 1];
      assert p == q + [x];
      ApplyAllAppend(db, run, q, [x]);
      var mid := ApplyAll(db, run, q);
      assert [x][1..] == [];
      assert ApplyAll(db, run, p) == Apply(mid, run, x);
      AbsorbedByWord(mid, run, x, q);
      ApplyAllAppend(mid, run, q, [x]);
      WordAbsorbsItself(db, run, q);
    }
  }

  /** Crash after any k committed transactions, start again from the first: the same database. */
  lemma RerunConverges(db: Db, run: RunId, xs: seq<Op>, k: nat)
    requires k <= |xs|
    ensures ApplyAll(ApplyAll(db, run, xs[..k]), run, xs) == ApplyAll(db, run, xs)
  {
    hide Apply, ApplyAll;
    var p, q := xs[..k], xs[k..];
    assert xs == p + q;
    ApplyAllAppend(db, run, p, q);
    ApplyAllAppend(ApplyAll(db, run, p), run, p, q);
    WordAbsorbsItself(db, run, p);
  }

  // ------------------------------------------------------------ what a whole run leaves

  function FieldOf(companies: map<Cnpj, Fields>, c: Cnpj, f: string): string {
    if c in companies && f in companies[c] then companies[c][f] else ""
  }

  // The last non-empty value the rows of company c give to field f, or start.
  function LastValue(xs: seq<Op>, c: Cnpj, f: string, start: string): string {
    if xs == [] then start
    else
      var x := xs[|xs| - 1];
      if x.RowOp? && x.e.Cnpj() == c && f in CanonicalFields(x.e) && CanonicalFields(x.e)[f] != ""
      then CanonicalFields(x.e)[f]
      else LastValue(xs[..|xs| - 1], c, f, start)
  }

  lemma ApplyAllLast(db: Db, run: RunId, xs: seq<Op>)
    requires xs != []
    ensures ApplyAll(db, run, xs) == Apply(ApplyAll(db, run, xs[..|xs| - 1]), run, xs[|xs| - 1])
  {
    hide Apply;
    var q, x := xs[..|xs| - 1], xs[|xs| - 1];
    assert xs == q + [x] && [x][1..] == [];
    ApplyAllAppend(db, run, q, [x]);
  }

  lemma FieldAfterOne(m: map<Cnpj, Fields>, d: Cnpj, fields: Fields, c: Cnpj, f: string)
    ensures FieldOf(UpsertCompany(m, d, fields), c, f)
         == if c == d && f in fields && fields[f] != "" then fields[f] else FieldOf(m, c, f)
  {
  }

  /** The last non-empty value wins, for every company and every establishment column. */
  lemma {:induction false} FieldIsLastValue(db: Db, run: RunId, xs: seq<Op>, c: Cnpj, f: string)
    ensures FieldOf(ApplyAll(db, run, xs).companies, c, f) == LastValue(xs, c, f, FieldOf(db.companies, c, f))
    decreases |xs|
  {
    if xs != [] {
      ApplyAllLast(db, run, xs);
      FieldIsLastValue(db, run, xs[..|xs| - 1], c, f);
      var x := xs[|xs| - 1];
      if x.RowOp? {
        FieldAfterOne(ApplyAll(db, run, xs[..|xs| - 1]).companies, x.e.Cnpj(), CanonicalFields(x.e), c, f);
      }
    }
  }

  // The primary code of the last row of company c.
  function LastPrimary(xs: seq<Op>, c: Cnpj): Option<string> {
    if xs == [] then None
    else
      var x := xs[|xs| - 1];
      if x.RowOp? && x.e.Cnpj() == c then Some(x.e.primaryCnae) else LastPrimary(xs[..|xs| - 1], c)
  }

  ghost predicate OnlyPrimary(cnaes: map<(Cnpj, string), Cnae>, c: Cnpj, code: string) {
    (c, code) in cnaes && forall k :: k in cnaes && k.0 == c ==> (cnaes[k].isPrimary <==> k.1 == code)
  }

  lemma PrimaryAfterRow(m: map<(Cnpj, string), Cnae>, d: Cnpj, primary: string, codes: set<string>, source: RecordKey, c: Cnpj, code: string)
    ensures OnlyPrimary(CnaesWith(m, d, primary, codes, source), d, primary)
    ensures c != d && OnlyPrimary(m, c, code) ==> OnlyPrimary(CnaesWith(m, d, primary, codes, source), c, code)
  {
  }

  /** Every ingested company has exactly one primary CNAE: that of its last row. */
  lemma {:induction false} OnePrimaryCnae(db: Db, run: RunId, xs: seq<Op>, c: Cnpj)
    requires LastPrimary(xs, c).Some?
    ensures OnlyPrimary(ApplyAll(db, run, xs).cnaes, c, LastPrimary(xs, c).value)
    decreases |xs|
  {
    ApplyAllLast(db, run, xs);
    var x := xs[|xs| - 1];
    if !(x.RowOp? && x.e.Cnpj() == c) {
      OnePrimaryCnae(db, run, xs[..|xs| - 1], c);
    }
    if x.RowOp? {
      PrimaryAfterRow(ApplyAll(db, run, xs[..|xs| - 1]).cnaes, x.e.Cnpj(), x.e.primaryCnae, CodeSet(x.e.secondaryCnaes), OpKey(x),
                      c, LastPrimary(xs, c).value);
    }
  }

  // The candidates a list of transactions stages; only its rows matter.
  function Staged(m: map<(RunId, Cnpj), Candidate>, run: RunId, xs: seq<Op>): map<(RunId, Cnpj), Candidate>
    decreases |xs|
  {
    if xs == [] then m else Staged(AfterCandidates(m, run, xs[0]), run, xs[1..])
  }

  lemma {:induction false} CandidatesAreStaged(db: Db, run: RunId, xs: seq<Op>)
    ensures ApplyAll(db, run, xs).candidates == Staged(db.candidates, run, xs)
    decreases |xs|
  {
    if xs != [] {
      CandidatesAreStaged(Apply(db, run, xs[0]), run, xs[1..]);
    }
  }

  ghost predicate NoRows(xs: seq<Op>) {
    forall i :: 0 <= i < |xs| ==> !xs[i].RowOp?
  }

  lemma {:induction false} NoRowsStageNothing(m: map<(RunId, Cnpj), Candidate>, run: RunId, xs: seq<Op>)
    requires NoRows(xs)
    ensures Staged(m, run, xs) == m
  {
    if xs != [] {
      NoRowsStageNothing(m, run, xs[1..]);
    }
  }

  // A non-empty value has reached the column.
  predicate Reached(m: map<Cnpj, Fields>, c: Cnpj, f: string, v: string) {
    v != "" ==> FieldOf(m, c, f) == v
  }

  // The columns of a company that a row fills.
  predicate HoldsRow(m: map<Cnpj, Fields>, c: Cnpj, row: Row)
    requires |row| == ESTABLISHMENT_COLUMN_COUNT
  {
    && Reached(m, c, "trade_name", Strip(row[4])) && Reached(m, c, "registration_status", if Strip(row[5]) == "02" then "ACTIVE" else if Strip(row[5]) == "03" then "SUSPENDED" else "INACTIVE")
    && Reached(m, c, "street_type", Strip(row[13])) && Reached(m, c, "street", Strip(row[14]))
    && Reached(m, c, "number", Strip(row[15])) && Reached(m, c, "complement", Strip(row[16]))
    && Reached(m, c, "district", Strip(row[17])) && Reached(m, c, "postal_code", Strip(row[18]))
    && Reached(m, c, "state", Upper(Strip(row[19]))) && Reached(m, c, "municipality_code", Strip(row[20]))
    && Reached(m, c, "phone", Strip(row[21]) + Strip(row[22])) && Reached(m, c, "email", Lower(Strip(row[27])))
  }

  lemma FieldReaches(m: map<Cnpj, Fields>, c: Cnpj, fields: Fields, f: string, v: string)
    requires f in fields && fields[f] == v
    ensures Reached(UpsertCompany(m, c, fields), c, f, v)
  {
    FieldAfterOne(m, c, fields, c, f);
  }

  lemma FieldTexts(e: Establishment)
    ensures var m := CanonicalFields(e);
      && m.Keys == ESTABLISHMENT_FIELDS
      && m["trade_name"] == e.tradeName && m["registration_status"] == RegistrationStatus(e.registrationStatus)
      && m["street_type"] == e.streetType && m["street"] == e.street && m["number"] == e.number
      && m["complement"] == e.complement && m["district"] == e.district && m["postal_code"] == e.postalCode
      && m["state"] == e.state && m["municipality_code"] == e.municipalityCode && m["phone"] == e.phone && m["email"] == e.email
  {
    hide RegistrationStatus;
  }

  lemma ColumnsReach(m: map<Cnpj, Fields>, c: Cnpj, row: Row)
    requires |row| == ESTABLISHMENT_COLUMN_COUNT
    ensures HoldsRow(UpsertCompany(m, c, CanonicalFields(ParseRow(row).value)), c, row)
  {
    hide Strip, Upper, Lower, Codes, UpsertCompany, FieldOf, Reached, CanonicalFields;
    var e := ParseRow(row).value;
    FieldTexts(e);
    var fields := CanonicalFields(e);
    FieldReaches(m, c, fields, "trade_name", e.tradeName);
    FieldReaches(m, c, fields, "registration_status", RegistrationStatus(e.registrationStatus));
    FieldReaches(m, c, fields, "street_type", e.streetType);
    FieldReaches(m, c, fields, "street", e.street);
    FieldReaches(m, c, fields, "number", e.number);
    FieldReaches(m, c, fields, "complement", e.complement);
    FieldReaches(m, c, fields, "district", e.district);
    FieldReaches(m, c, fields, "postal_code", e.postalCode);
    FieldReaches(m, c, fields, "state", e.state);
    FieldReaches(m, c, fields, "municipality_code", e.municipalityCode);
    FieldReaches(m, c, fields, "phone", e.phone);
    FieldReaches(m, c, fields, "email", e.email);
  }

  /**
   From the CSV columns to the stored ones: after a row is ingested its company holds the row's
   non-empty texts, its CNAE flags follow columns 11 and 12, and the run has it as a result.
   */
  lemma RowReachesCompany(db: Db, run: RunId, row: Row)
    requires |row| == ESTABLISHMENT_COLUMN_COUNT
    ensures ParseRow(row).Some?
    ensures var c := Strip(row[0]) + Strip(row[1]) + Strip(row[2]); var after := Apply(db, run, RowOp(ParseRow(row).value));
      && HoldsRow(after.companies, c, row) && OnlyPrimary(after.cnaes, c, Strip(row[11]))
      && (forall code :: code == Strip(row[11]) || HasPiece(row[12], code) ==>
            (c, code) in after.cnaes && after.cnaes[(c, code)].source == (c, EstablishmentPayload(ParseRow(row).value)))
      && (forall k :: k in db.cnaes && (k.0 != c || (k.1 != Strip(row[11]) && !HasPiece(row[12], k.1))) ==>
            k in after.cnaes && after.cnaes[k].source == db.cnaes[k].source)
      && (run, c) in after.results
  {
    hide AfterRegistry, AfterRecords, AfterCandidates, Strip, Upper, Lower, Codes, CanonicalFields, UpsertCompany, HoldsRow,
         OnlyPrimary, CnaesWith, CodeSet, HasPiece;
    var e := ParseRow(row).value;
    ColumnsReach(db.companies, e.Cnpj(), row);
    CodesReach(db.cnaes, e.Cnpj(), e.primaryCnae, CodeSet(e.secondaryCnaes), OpKey(RowOp(e)));
    forall code ensures code in CodeSet(e.secondaryCnaes) <==> HasPiece(row[12], code) {
      CodesArePieces(row[12], code);
      InCodeSet(e.secondaryCnaes, code);
    }
  }

  lemma InCodeSet(codes: seq<string>, code: string)
    ensures code in CodeSet(codes) <==> code in codes
  {
  }

  lemma CodesReach(m: map<(Cnpj, string), Cnae>, c: Cnpj, primary: string, codes: set<string>, source: RecordKey)
    ensures OnlyPrimary(CnaesWith(m, c, primary, codes, source), c, primary)
    ensures forall code :: code in codes || code == primary ==>
      (c, code) in CnaesWith(m, c, primary, codes, source) && CnaesWith(m, c, primary, codes, source)[(c, code)].source == source
    ensures forall k :: k in m && (k.0 != c || (k.1 !in codes && k.1 != primary)) ==>
      k in CnaesWith(m, c, primary, codes, source) && CnaesWith(m, c, primary, codes, source)[k].source == m[k].source
  {
    PrimaryAfterRow(m, c, primary, codes, source, c, primary);
  }

  // A text is observed exactly when it is not empty.
  ghost predicate Observed(obs: Fields, f: string, text: string) {
    if text == "" then f !in obs else f in obs && obs[f] == text
  }

  lemma NonEmptyObserves(m: Fields, f: string)
    requires f in m
    ensures Observed(NonEmpty(m), f, m[f])
  {
  }

  // The texts of a payload, under the names of its columns.
  ghost predicate ObservesPayload(obs: Fields, x: Op)
    requires !x.RowOp? ==> |x.record| == COMPLEMENT_COLUMN_COUNT
  {
    match x
    case RowOp(e) =>
      && Observed(obs, "trade_name", e.tradeName) && Observed(obs, "state", e.state) && Observed(obs, "email", e.email)
      && Observed(obs, "phone", e.phone) && Observed(obs, "municipality_code", e.municipalityCode)
      && Observed(obs, "postal_code", e.postalCode) && Observed(obs, "street", e.street)
    case CompanyOp(_, r, _) =>
      && Observed(obs, "legal_name", r[1]) && Observed(obs, "legal_nature_code", r[2]) && Observed(obs, "size_code", r[5])
      && Observed(obs, "responsible_qualification", r[3]) && Observed(obs, "responsible_federative_entity", r[6])
    case SimplesOp(_, r) =>
      && Observed(obs, "simples_option", r[1]) && Observed(obs, "simples_option_on", r[2]) && Observed(obs, "simples_excluded_on", r[3])
      && Observed(obs, "mei_option", r[4]) && Observed(obs, "mei_option_on", r[5]) && Observed(obs, "mei_excluded_on", r[6])
  }

  lemma RowObserves(e: Establishment)
    ensures ObservesPayload(NonEmpty(CanonicalFields(e)), RowOp(e))
  {
    hide NonEmpty, CanonicalFields, Observed;
    FieldTexts(e);
    var m := CanonicalFields(e);
    NonEmptyObserves(m, "trade_name");
    NonEmptyObserves(m, "state");
    NonEmptyObserves(m, "email");
    NonEmptyObserves(m, "phone");
    NonEmptyObserves(m, "municipality_code");
    NonEmptyObserves(m, "postal_code");
    NonEmptyObserves(m, "street");
  }

  lemma CompanyObserves(c: Cnpj, r: Record, fields: Fields)
    requires |r| == COMPLEMENT_COLUMN_COUNT && CompanyFields(r) == Some(fields)
    ensures ObservesPayload(CompanyObservations(r, fields), CompanyOp(c, r, fields))
  {
    hide NonEmpty, Observed, ShareCapital;
    var m := fields["responsible_qualification" := r[3]]["responsible_federative_entity" := r[6]];
    NonEmptyObserves(m, "legal_name");
    NonEmptyObserves(m, "legal_nature_code");
    NonEmptyObserves(m, "size_code");
    NonEmptyObserves(m, "responsible_qualification");
    NonEmptyObserves(m, "responsible_federative_entity");
  }

  lemma SimplesObserves(c: Cnpj, r: Record)
    requires |r| == COMPLEMENT_COLUMN_COUNT
    ensures ObservesPayload(SimplesObservations(r), SimplesOp(c, r))
  {
    hide NonEmpty, Observed;
    var m := map["simples_option" := r[1], "simples_option_on" := r[2], "simples_excluded_on" := r[3],
                 "mei_option" := r[4], "mei_option_on" := r[5], "mei_excluded_on" := r[6]];
    NonEmptyObserves(m, "simples_option");
    NonEmptyObserves(m, "simples_option_on");
    NonEmptyObserves(m, "simples_excluded_on");
    NonEmptyObserves(m, "mei_option");
    NonEmptyObserves(m, "mei_option_on");
    NonEmptyObserves(m, "mei_excluded_on");
  }

  /** A new source record keeps the non-empty texts of its payload under their names; one that is there stays as it is. */
  lemma ObservationsAreKept(db: Db, run: RunId, x: Op)
    requires x.CompanyOp? ==> |x.record| == COMPLEMENT_COLUMN_COUNT && CompanyFields(x.record) == Some(x.fields)
    requires x.SimplesOp? ==> |x.record| == COMPLEMENT_COLUMN_COUNT
    ensures var after := Apply(db, run, x).records;
      && (forall k :: k in db.records ==> k in after && after[k] == db.records[k])
      && (OpKey(x) !in db.records ==>
            && OpKey(x) in after && after.Keys == db.records.Keys + {OpKey(x)}
            && after[OpKey(x)].company == OpCnpj(x) && after[OpKey(x)].run == run
            && ObservesPayload(after[OpKey(x)].observations, x))
  {
    hide AfterCompanies, AfterRegistry, AfterCnaes, AfterResults, AfterCandidates, ObservesPayload, CompanyFields, CompanyObservations,
         SimplesObservations, NonEmpty, CanonicalFields;
    match x
    case RowOp(e) => RowObserves(e);
    case CompanyOp(c, r, fields) => CompanyObserves(c, r, fields);
    case SimplesOp(c, r) => SimplesObserves(c, r);
  }

  /** A company record fills legal name, legal nature, capital and size, and is kept as its candidate's payload. */
  lemma RecordReachesCompany(db: Db, run: RunId, c: Cnpj, r: Record)
    requires |r| == COMPLEMENT_COLUMN_COUNT && CompanyFields(r).Some?
    ensures var after := Apply(db, run, CompanyOp(c, r, CompanyFields(r).value));
      && Reached(after.registry, c, "legal_name", r[1]) && Reached(after.registry, c, "legal_nature_code", r[2])
      && Reached(after.registry, c, "size_code", r[5])
      && ShareCapital(r[4]).Ok? && Reached(after.registry, c, "share_capital", ShareCapital(r[4]).value)
      && (run, c) in after.companyPayloads && after.companyPayloads[(run, c)] == r
      && after == db.(registry := after.registry, records := after.records, companyPayloads := db.companyPayloads[(run, c) := r])
      && (forall d :: d != c ==> (d in after.registry <==> d in db.registry) && (d in db.registry ==> after.registry[d] == db.registry[d]))
  {
    hide AfterRecords, ShareCapital;
  }

  lemma MergeOne(base: Fields, done: Fields, f: string, v: string)
    requires f !in done
    ensures Merge(base, done[f := v]) == if v == "" then Merge(base, done) else Merge(base, done)[f := v]
  {
    SameMap(Merge(base, done[f := v]), if v == "" then Merge(base, done) else Merge(base, done)[f := v]);
  }

  lemma CodeSetNext(codes: seq<string>, i: nat)
    requires i < |codes|
    ensures CodeSet(codes[..i + 1]) == CodeSet(codes[..i]) + {codes[i]}
  {
    assert codes[..i + 1] == codes[..i] + [codes[i]];
    forall code ensures code in CodeSet(codes[..i + 1]) <==> code in CodeSet(codes[..i]) + {codes[i]} {
      if code in CodeSet(codes[..i]) {
        var j :| 0 <= j < i && codes[..i][j] == code;
        assert codes[..i + 1][j] == code;
      }
      assert codes[..i + 1][i] == codes[i];
    }
  }

  lemma CnaesWithOneMore(m: map<(Cnpj, string), Cnae>, c: Cnpj, p: string, codes: set<string>, s: RecordKey, code: string)
    ensures CnaesWith(m, c, p, codes + {code}, s)
         == if code == p then CnaesWith(m, c, p, codes, s) else CnaesWith(m, c, p, codes, s)[(c, code) := Cnae(false, s)]
  {
  }

  // --------------------------------------------------------------------- the tables

  class CnpjStore {
    var companies: map<Cnpj, Fields>
    var registry: map<Cnpj, Fields>
    var cnaes: map<(Cnpj, string), Cnae>
    var records: map<RecordKey, SourceRecord>
    var results: map<(RunId, Cnpj), bool>
    var candidates: map<(RunId, Cnpj), Candidate>
    var companyPayloads: map<(RunId, Cnpj), Record>
    var simplesPayloads: map<(RunId, Cnpj), Record>

    ghost function Contents(): Db
      reads this
    {
      Db(companies, registry, cnaes, records, results, candidates, companyPayloads, simplesPayloads)
    }

    constructor ()
      ensures Contents() == Db(map[], map[], map[], map[], map[], map[], map[], map[])
    {
      companies, registry, cnaes, records := map[], map[], map[], map[];
      results, candidates, companyPayloads, simplesPayloads := map[], map[], map[], map[];
    }

    // `setattr` for each non-empty value that differs
    method MergeFields(base: Fields, update: Fields) returns (merged: Fields, changed: set<string>)
      ensures merged == Merge(base, update)
      ensures changed == {} ==> merged == base
    {
      merged, changed := base, {};
      var todo := update.Keys;
      ghost var done: Fields := map[];
      assert Merge(base, done) == base;
      while todo != {}
        invariant todo !! done.Keys && todo + done.Keys == update.Keys
        invariant forall f :: f in done ==> done[f] == update[f]
        invariant merged == Merge(base, done)
        invariant changed == {} ==> merged == base
        decreases todo
      {
        var f :| f in todo;
        MergeOne(base, done, f, update[f]);
        todo := todo - {f};
        done := done[f := update[f]];
        if update[f] != "" && (f !in merged || merged[f] != update[f]) {
          merged := merged[f := update[f]];
          changed := changed + {f};
        }
      }
      assert done == update;
    }

    method GetOrCreateRecord(run: RunId, x: Op)
      modifies this`records
      ensures records == AfterRecords(old(records), run, x)
    {
      var key := OpKey(x);
      if key !in records {
        records := records[key := SourceRecord(key.0, run, PayloadObservations(key.1))];
      }
    }

    method UpsertCnaes(e: Establishment)
      modifies this`cnaes
      ensures cnaes == AfterCnaes(old(cnaes), RowOp(e))
    {
      var c, source := e.Cnpj(), OpKey(RowOp(e));
      ghost var before := cnaes;
      cnaes := map k | k in cnaes ::
        if k.0 == c && cnaes[k].isPrimary && k.1 != e.primaryCnae then cnaes[k].(isPrimary := false) else cnaes[k];
      cnaes := cnaes[(c, e.primaryCnae) := Cnae(true, source)];
      assert cnaes == CnaesWith(before, c, e.primaryCnae, {}, source);
      for i := 0 to |e.secondaryCnaes|
        invariant cnaes == CnaesWith(before, c, e.primaryCnae, CodeSet(e.secondaryCnaes[..i]), source)
      {
        var code := e.secondaryCnaes[i];
        CodeSetNext(e.secondaryCnaes, i);
        CnaesWithOneMore(before, c, e.primaryCnae, CodeSet(e.secondaryCnaes[..i]), source, code);
        if code != e.primaryCnae {
          cnaes := cnaes[(c, code) := Cnae(false, source)];
        }
      }
      assert e.secondaryCnaes[..|e.secondaryCnaes|] == e.secondaryCnaes;
    }

    method UpsertCompanyRow(e: Establishment) returns (created: bool)
      modifies this`companies
      ensures created <==> e.Cnpj() !in old(companies)
      ensures companies == AfterCompanies(old(companies), RowOp(e))
    {
      var c, fields := e.Cnpj(), CanonicalFields(e);
      created := c !in companies;
      if created {
        companies := companies[c := fields];
      } else {
        var merged, changed := MergeFields(companies[c], fields);
        if changed != {} {
          companies := companies[c := merged];
        }
      }
    }

    method StageCandidate(run: RunId, e: Establishment) returns (linked: Option<Cnpj>)
      modifies this`candidates
      ensures candidates == old(candidates)[(run, e.Cnpj()) := Candidate(e.cnpjBasico, e, linked)]
    {
      var c := e.Cnpj();
      linked := if (run, c) in candidates then candidates[(run, c)].company else None;
      candidates := candidates[(run, c) := Candidate(e.cnpjBasico, e, linked)];
    }

    method LinkCandidate(run: RunId, c: Cnpj)
      requires (run, c) in candidates
      modifies this`candidates
      ensures candidates == old(candidates)[(run, c) := old(candidates)[(run, c)].(company := Some(c))]
    {
      if candidates[(run, c)].company != Some(c) {
        candidates := candidates[(run, c) := candidates[(run, c)].(company := Some(c))];
      }
    }

    method AddQueryResult(run: RunId, c: Cnpj, isNew: bool)
      modifies this`results
      ensures results == if (run, c) in old(results) then old(results) else old(results)[(run, c) := isNew]
    {
      if (run, c) !in results {
        results := results[(run, c) := isNew];
      }
    }

    method IngestEstablishment(run: RunId, e: Establishment)
      modifies this`companies, this`records, this`cnaes, this`results
      ensures companies == AfterCompanies(old(companies), RowOp(e))
      ensures records == AfterRecords(old(records), run, RowOp(e))
      ensures cnaes == AfterCnaes(old(cnaes), RowOp(e))
      ensures results == AfterResults(old(results), old(companies), run, RowOp(e))
    {
      var created := UpsertCompanyRow(e);
      GetOrCreateRecord(run, RowOp(e));
      UpsertCnaes(e);
      AddQueryResult(run, e.Cnpj(), created);
    }

    /**
     One matching row in one transaction: stage the candidate, ingest the establishment, link the two;
     a value that its column cannot hold rolls all of it back.
     */
    method IngestRow(run: RunId, e: Establishment) returns (ok: bool)
      modifies this
      ensures ok <==> Fits(e)
      ensures Contents() == if ok then Apply(old(Contents()), run, RowOp(e)) else old(Contents())
    {
      hide AfterCompanies, AfterCnaes, AfterRecords, AfterResults, Fits;
      if !Fits(e) {
        return false;
      }
      ok := true;
      ghost var staged := candidates;
      var linked := StageCandidate(run, e);
      IngestEstablishment(run, e);
      LinkCandidate(run, e.Cnpj());
      Overwrite(staged, (run, e.Cnpj()), Candidate(e.cnpjBasico, e, linked), Candidate(e.cnpjBasico, e, Some(e.Cnpj())));
    }

    // The candidate exists, is linked, and carries the record's key.
    predicate Attachable(run: RunId, c: Cnpj, record: Record)
      requires record != []
      reads this
    {
      (run, c) in candidates && candidates[(run, c)].basico == record[0] && candidates[(run, c)].company.Some?
    }

    method IngestCompany(run: RunId, c: Cnpj, record: Record) returns (ok: bool)
      requires |record| == COMPLEMENT_COLUMN_COUNT
      requires (run, c) in candidates ==> candidates[(run, c)].company in {None, Some(c)}
      modifies this
      ensures ok <==> old(Attachable(run, c, record)) && CompanyRecordFits(record)
      ensures Contents() == if ok then Apply(old(Contents()), run, CompanyOp(c, record, CompanyFields(record).value))
                            else old(Contents())
    {
      if !Attachable(run, c, record) {
        return false;
      }
      var fields := CompanyFields(record);
      if fields.None? || !CompanyRecordFits(record) {
        return false;
      }
      var merged, changed := MergeFields(if c in registry then registry[c] else map[], fields.value);
      registry := registry[c := merged];
      GetOrCreateRecord(run, CompanyOp(c, record, fields.value));
      companyPayloads := companyPayloads[(run, c) := record];
      return true;
    }

    method IngestSimples(run: RunId, c: Cnpj, record: Record) returns (ok: bool)
      requires |record| == COMPLEMENT_COLUMN_COUNT
      requires (run, c) in candidates ==> candidates[(run, c)].company in {None, Some(c)}
      modifies this
      ensures ok <==> old(Attachable(run, c, record)) && NoNulIn(record)
      ensures Contents() == if ok then Apply(old(Contents()), run, SimplesOp(c, record)) else old(Contents())
    {
      if !Attachable(run, c, record) || !NoNulIn(record) {
        return false;
      }
      GetOrCreateRecord(run, SimplesOp(c, record));
      simplesPayloads := simplesPayloads[(run, c) := record];
      return true;
    }
  }
}
