/** Rows and records that the code accepts and the database refuses, and what they make of a run. */
module RefusedRows {
  import opened Basics
  import opened Text
  import opened Numbers
  import opened LimitedScan
  import opened Establishments
  import Complements
  import opened Ingestion
  import opened EstablishmentScan
  import opened ComplementJoin
  import opened JoinOutcomes
  import opened Discovery

  // ------------------------------------------------------------------ what columns hold

  // The texts of a match with the widths of their columns, and the texts kept as JSON only.
  function Widths(e: Establishment): seq<(string, nat)> {
    [(e.cnpjBasico + e.cnpjOrdem + e.cnpjDv, 14), (e.cnpjBasico, 8), (e.tradeName, 255), (e.streetType, 40), (e.street, 255),
     (e.number, 40), (e.complement, 160), (e.district, 160), (e.municipalityCode, 16), (e.state, 2), (e.postalCode, 16),
     (e.phone, 32), (e.email, 254), (e.primaryCnae, 7)]
  }

  function Unbounded(e: Establishment): seq<string> {
    [e.branchIdentifier, e.registrationStatus, e.registrationStatusDate, e.activityStartedOn, e.secondaryPhone]
  }

  predicate Holds(column: (string, nat)) {
    |column.0| <= column.1 && NoNul(column.0)
  }

  ghost predicate HoldAll(columns: seq<(string, nat)>) {
    forall i :: 0 <= i < |columns| ==> Holds(columns[i])
  }

  ghost predicate NoNulInAny(texts: seq<string>) {
    forall i :: 0 <= i < |texts| ==> NoNul(texts[i])
  }

  /** A match is refused exactly when a text is wider than its column, a secondary code has more than seven characters, or a NUL is in it. */
  lemma FitsExactly(e: Establishment)
    ensures Fits(e) <==>
      HoldAll(Widths(e)) && NoNulInAny(Unbounded(e)) && NoNulInAny(e.secondaryCnaes)
      && forall i :: 0 <= i < |e.secondaryCnaes| ==> |e.secondaryCnaes[i]| <= 7
  {
    hide NoNul;
    var w, u := Widths(e), Unbounded(e);
    RootHasNoNul(e);
    AllWidths(w);
    AllTexts(u);
  }

  lemma AllWidths(w: seq<(string, nat)>)
    requires |w| == 14
    ensures HoldAll(w) <==>
      && Holds(w[0]) && Holds(w[1]) && Holds(w[2]) && Holds(w[3]) && Holds(w[4]) && Holds(w[5]) && Holds(w[6])
      && Holds(w[7]) && Holds(w[8]) && Holds(w[9]) && Holds(w[10]) && Holds(w[11]) && Holds(w[12]) && Holds(w[13])
  {
    hide NoNul;
  }

  lemma AllTexts(u: seq<string>)
    requires |u| == 5
    ensures NoNulInAny(u) <==> NoNul(u[0]) && NoNul(u[1]) && NoNul(u[2]) && NoNul(u[3]) && NoNul(u[4])
  {
    hide NoNul;
  }

  lemma RootHasNoNul(e: Establishment)
    ensures NoNul(e.Cnpj()) ==> NoNul(e.cnpjBasico)
  {
    if NoNul(e.Cnpj()) {
      assert forall i :: 0 <= i < |e.cnpjBasico| ==> e.Cnpj()[i] == e.cnpjBasico[i];
    }
  }

  // ---------------------------------------------------------------- one matching row

  function OneRow(row: Row, f: Filter): Inputs {
    Inputs(Full, 10, f, [[row]], [], [])
  }

  lemma ScanOfOneRow(row: Row, f: Filter)
    requires f.IsSelective() && ParseRow(row).Some? && f.Matches(ParseRow(row).value)
    ensures var e := ParseRow(row).value;
      ScanOf(OneRow(row, f)) == if Fits(e) then Scan([e], 1, None) else Scan([], 1, Some(Refused))
    ensures Flat([[row]]) == [row]
  {
    hide Fits;
    assert [[row]][1..] == [] && [row][1..] == [];
    assert Flat([]) == [] && NonBlank([row]) == [row] + NonBlank([]);
    assert Flat([[row]]) == NonBlank([row]) + Flat([]);
    assert ScanLimited([], Judge(f), 9) == Scan([], 0, None);
  }

  /**
   A part of one matching row: the run succeeds when the row fits its columns; otherwise it fails with one
   match counted, none invalid and nothing committed.
   */
  lemma OneMatch(row: Row, f: Filter, m: Candidates, run: RunId)
    requires f.IsSelective() && ParseRow(row).Some? && f.Matches(ParseRow(row).value)
    ensures var e, effect := ParseRow(row).value, Discover(OneRow(row, f), m, run);
      if Fits(e) then effect.status == Succeeded && effect.ops == [RowOp(e)] && effect.matched == 1
      else effect == Effect([], Failed, 1, 1, 0, None)
  {
    hide Fits, ScanOf, ListedAfter, PartsOpened, FilesOpened, Flat, ParseRow;
    ScanOfOneRow(row, f);
    var listed := ListedAfter(OneRow(row, f), m, run);
    NoFiles(Companies, listed);
    NoFiles(Simples, listed);
  }

  lemma NoFiles(kind: Kind, listed: seq<Staging>)
    ensures !JoinOf(kind, [], listed).Failed() && JoinOf(kind, [], listed).work.ops == []
  {
  }

  const FOOD: Filter := Filter({}, {}, {}, {}, {"10"}, false)

  /** A prefix finds CNAE codes longer than their column: the run fails on the row it found. */
  lemma WideCodeFails(row: Row, m: Candidates, run: RunId)
    requires |row| == ESTABLISHMENT_COLUMN_COUNT && Strip(row[11]) == "10113010"
    ensures Discover(OneRow(row, FOOD), m, run) == Effect([], Failed, 1, 1, 0, None)
  {
    hide Discover, Strip, Codes, Upper, Lower;
    assert "10" in FOOD.cnaePrefixes && "10" <= "10113010";
    OneMatch(row, FOOD, m, run);
  }

  // ---------------------------------------------------------------- one company record

  // Seventeen digits or more, the first one no zero.
  predicate IsLongNumber(t: string) {
    |t| >= 17 && AreDigits(t) && t[0] != '0'
  }

  lemma {:induction false} IntegerIsLarge(t: string)
    requires t != "" && AreDigits(t) && t[0] != '0'
    ensures Integer(t) as real >= Power10(|t| - 1)
  {
    if |t| == 1 {
      assert t[..0] == "";
    } else {
      IntegerIsLarge(t[..|t| - 1]);
    }
  }

  lemma {:induction false} PowersGrow(n: nat, k: nat)
    requires k <= n
    ensures Power10(k) <= Power10(n)
  {
    if k < n {
      PowersGrow(n - 1, k);
    }
  }

  lemma SixteenZeros()
    ensures Power10(16) == 10000000000000000.0
  {
    assert Power10(4) == 10000.0;
    assert Power10(8) == 100000000.0;
    assert Power10(12) == 1000000000000.0;
  }

  lemma {:induction false} NoCommas(t: string)
    requires AreDigits(t)
    ensures CommasToDots(t) == t
  {
    if t != "" {
      NoCommas(t[1..]);
    }
  }

  lemma DigitsStay(t: string)
    requires AreDigits(t)
    ensures Strip(t) == t && Only(t, NotDot) == t && Only(t, NotUnderscore) == t && CommasToDots(t) == t && Lower(t) == t
    ensures Find(t, 'e') == |t| && Find(t, '.') == |t|
  {
    NoCommas(t);
    hide Only, Lower, Find, CommasToDots;
    assert AllOf(t, NotDot) && AllOf(t, NotUnderscore);
    assert Lower(t) == t;
  }

  lemma DigitsAreNumber(t: string)
    requires t != "" && AreDigits(t)
    ensures NumberOf(t) == Finite(Integer(t) as real)
  {
    DigitsStay(t);
    hide Strip, Only, Lower, Find, Integer;
    assert IsDigit(t[0]) && t[..|t|] == t;
    assert !("nan" <= t) && !("snan" <= t) && t != "inf" && t != "infinity";
    NothingShifts(Integer(t) as real);
  }

  lemma NothingShifts(x: real)
    ensures Shift(x, 0) == x
  {
  }

  /** A share capital of 17 digits or more is read as a number, and no column of 18 digits with two decimals holds it. */
  lemma LongCapitalOverflows(r: Complements.Record)
    requires |r| == Complements.COMPLEMENT_COLUMN_COUNT && IsLongNumber(r[4])
    ensures CompanyFields(r).Some? && !RecordFits(Companies, r)
  {
    hide Strip, Only, CommasToDots, Integer, Power10;
    DigitsStay(r[4]);
    DigitsAreNumber(r[4]);
    IntegerIsLarge(r[4]);
    PowersGrow(|r[4]| - 1, 16);
    SixteenZeros();
  }

  /** A run whose scan ends well fails when a staged root's first record is one the columns cannot hold. */
  lemma UnfitRecordFails(inputs: Inputs, m: Candidates, run: RunId, x: Staging)
    requires inputs.companyFiles != [] && x in ListedAfter(inputs, m, run)
    requires FirstGood(inputs.companyFiles, x.basico).Some? && !RecordFits(Companies, FirstGood(inputs.companyFiles, x.basico).value)
    ensures Discover(inputs, m, run).status == Failed
  {
    hide Discover, ListedAfter, FirstGood, RecordFits, RootsAreValid, Judge, Flat, Hits, Readable;
    FailedExactly(inputs, m, run);
    assert RootFails(Companies, inputs.companyFiles, x.basico);
  }
}
