/** Rows of the Receita Federal establishment files, and the selective filter over them. */
module Establishments {
  import opened Basics
  import opened Text
  import opened JsonText
  import opened LimitedScan
  import Ordering

  type Row = seq<string>

  const ESTABLISHMENT_COLUMN_COUNT := 30

  datatype Establishment = Establishment(
    cnpjBasico: string, cnpjOrdem: string, cnpjDv: string,
    branchIdentifier: string, tradeName: string,
    registrationStatus: string, registrationStatusDate: string, activityStartedOn: string,
    primaryCnae: string, secondaryCnaes: seq<string>,
    streetType: string, street: string, number: string, complement: string, district: string,
    postalCode: string, state: string, municipalityCode: string,
    phone: string, secondaryPhone: string, email: string)
  {
    function Cnpj(): string {
      cnpjBasico + cnpjOrdem + cnpjDv
    }
  }

  // `value.split(",")`, stripped, without empty pieces
  function Codes(value: string): seq<string>
    decreases |value|
  {
    var n := CommaAt(value);
    var first := Strip(value[..n]);
    (if first == "" then [] else [first]) + (if n == |value| then [] else Codes(value[n + 1..]))
  }

  function CommaAt(value: string): (n: nat)
    ensures n <= |value| && (n < |value| ==> value[n] == ',')
  {
    if value == "" || value[0] == ',' then 0 else 1 + CommaAt(value[1..])
  }

  // Characters i to j of the value lie between two commas, or between one and an end.
  ghost predicate IsPiece(value: string, i: nat, j: nat) {
    && i <= j <= |value| && (i == 0 || value[i - 1] == ',') && (j == |value| || value[j] == ',')
    && forall x :: i <= x < j ==> value[x] != ','
  }

  ghost predicate PieceGives(value: string, i: nat, j: nat, code: string) {
    IsPiece(value, i, j) && code == Strip(value[i..j]) != ""
  }

  ghost predicate HasPiece(value: string, code: string) {
    exists i: nat, j: nat :: PieceGives(value, i, j, code)
  }

  // The first piece ends at the first comma; the others are those of the text behind it.
  lemma FirstPiece(value: string, code: string)
    ensures code == Strip(value[..CommaAt(value)]) != "" ==> HasPiece(value, code)
    ensures forall i: nat, j: nat :: PieceGives(value, i, j, code) && i <= CommaAt(value) ==> code == Strip(value[..CommaAt(value)]) != ""
  {
    hide Strip, CommaAt;
    var n := CommaAt(value);
    FirstComma(value);
    assert value[0..n] == value[..n];
    if code == Strip(value[..n]) != "" {
      assert PieceGives(value, 0, n, code);
    }
    forall i: nat, j: nat | PieceGives(value, i, j, code) && i <= n ensures code == Strip(value[..n]) != "" {
      assert i == 0 && j == n;
    }
  }

  lemma LaterPiece(value: string, code: string)
    requires CommaAt(value) < |value|
    ensures HasPiece(value[CommaAt(value) + 1..], code) ==> HasPiece(value, code)
  {
    hide Strip, CommaAt, PieceGives;
    var n := CommaAt(value);
    var rest := value[n + 1..];
    if HasPiece(rest, code) {
      var i: nat, j: nat :| PieceGives(rest, i, j, code);
      PieceBehind(value, n, i, j, code);
    }
  }

  lemma PieceIsFirstOrLater(value: string, code: string)
    requires HasPiece(value, code)
    ensures var n := CommaAt(value); code == Strip(value[..n]) != "" || (n < |value| && HasPiece(value[n + 1..], code))
  {
    hide Strip, CommaAt, PieceGives;
    var n := CommaAt(value);
    var i: nat, j: nat :| PieceGives(value, i, j, code);
    if i <= n {
      FirstPiece(value, code);
    } else {
      PieceInside(value, i, j, code);
      PieceBehind(value, n, i - n - 1, j - n - 1, code);
    }
  }

  lemma PieceInside(value: string, i: nat, j: nat, code: string)
    requires PieceGives(value, i, j, code)
    ensures i <= j <= |value|
  {
  }

  lemma PieceBehind(value: string, n: nat, i: nat, j: nat, code: string)
    requires n < |value| && value[n] == ','
    ensures PieceGives(value, n + 1 + i, n + 1 + j, code) <==> PieceGives(value[n + 1..], i, j, code)
  {
    hide Strip;
    var rest := value[n + 1..];
    assert forall x :: 0 <= x < |rest| ==> rest[x] == value[n + 1 + x];
    assert forall x :: n + 1 <= x < |value| ==> value[x] == rest[x - n - 1];
    if i <= j <= |rest| {
      assert rest[i..j] == value[n + 1 + i..n + 1 + j];
    }
  }

  /** The codes are the pieces between commas, stripped, without the empty ones. */
  lemma {:induction false} CodesArePieces(value: string, code: string)
    ensures code in Codes(value) <==> HasPiece(value, code)
    decreases |value|
  {
    hide Strip, HasPiece, CommaAt;
    FirstPiece(value, code);
    if HasPiece(value, code) {
      PieceIsFirstOrLater(value, code);
    }
    if CommaAt(value) < |value| {
      LaterPiece(value, code);
      CodesArePieces(value[CommaAt(value) + 1..], code);
    }
  }

  lemma {:induction false} FirstComma(value: string)
    ensures forall x :: 0 <= x < CommaAt(value) ==> value[x] != ','
  {
    if value != "" && value[0] != ',' {
      FirstComma(value[1..]);
      assert forall x :: 1 <= x < CommaAt(value) ==> value[x] == value[1..][x - 1];
    }
  }

  // `CnpjEstablishmentReader._parse_row`; None stands for CnpjLayoutError.
  function ParseRow(row: Row): Option<Establishment> {
    if |row| != ESTABLISHMENT_COLUMN_COUNT then None
    else Some(Establishment(
      Strip(row[0]), Strip(row[1]), Strip(row[2]), Strip(row[3]), Strip(row[4]),
      Strip(row[5]), Strip(row[6]), Strip(row[10]), Strip(row[11]), Codes(row[12]),
      Strip(row[13]), Strip(row[14]), Strip(row[15]), Strip(row[16]), Strip(row[17]),
      Strip(row[18]), Upper(Strip(row[19])), Strip(row[20]),
      Strip(row[21]) + Strip(row[22]), Strip(row[23]) + Strip(row[24]), Lower(Strip(row[27]))))
  }

  datatype Filter = Filter(
    registrationStatuses: set<string>,
    states: set<string>,
    municipalityCodes: set<string>,
    cnaeCodes: set<string>,
    cnaePrefixes: set<string>,
    includeSecondaryCnaes: bool)
  {
    predicate IsSelective() {
      states != {} || municipalityCodes != {} || cnaeCodes != {} || cnaePrefixes != {}
    }

    predicate Matches(e: Establishment) {
      (registrationStatuses == {} || e.registrationStatus in registrationStatuses)
      && (states == {} || e.state in states)
      && (municipalityCodes == {} || e.municipalityCode in municipalityCodes)
      && ((cnaeCodes == {} && cnaePrefixes == {})
          || CnaeMatches(e.primaryCnae)
          || (includeSecondaryCnaes && exists i :: 0 <= i < |e.secondaryCnaes| && CnaeMatches(e.secondaryCnaes[i])))
    }

    predicate CnaeMatches(cnae: string) {
      cnae in cnaeCodes || exists p :: p in cnaePrefixes && p <= cnae
    }
  }

  // The value of a key, if the mapping has it.
  function Lookup(v: Json, key: string): Option<Json> {
    if v.Obj? then LookupEntry(v.entries, key) else None
  }

  function LookupEntry(es: seq<Ordering.Keyed<Json>>, key: string): Option<Json> {
    if es == [] then None else if es[0].key == key then Some(es[0].value) else LookupEntry(es[1..], key)
  }

  // What iterating a filter value yields: list items, the keys of a mapping, the characters of a
  // text.  None stands for a value that cannot be iterated or an item that is no text.
  function TextsAt(v: Json, key: string): Option<set<string>> {
    match Lookup(v, key)
    case None => Some({})
    case Some(Arr(items)) =>
      if forall i :: 0 <= i < |items| ==> items[i].Str? then Some(set i | 0 <= i < |items| && items[i].Str? :: items[i].s) else None
    case Some(Str(s)) => Some(set i | 0 <= i < |s| :: [s[i]])
    case Some(Obj(es)) => Some(set i | 0 <= i < |es| :: es[i].key)
    case Some(_) => None
  }

  // A number token that is zero: no digit other than 0 before the exponent.
  predicate IsZeroToken(t: string) {
    t == "" || t[0] == 'e' || t[0] == 'E' || (!('1' <= t[0] <= '9') && IsZeroToken(t[1..]))
  }

  // `bool(value)`
  predicate Truthy(v: Json) {
    match v
    case Null => false
    case Bool(b) => b
    case Num(token) => !IsZeroToken(token)
    case Str(s) => s != ""
    case Arr(items) => items != []
    case Obj(es) => es != []
  }

  predicate ValidPrefix(p: string) {
    |p| <= 7 && forall i :: 0 <= i < |p| ==> IsDigitLike(p[i])
  }

  function Stripped(texts: set<string>): set<string> {
    set s | s in texts && Strip(s) != "" :: Strip(s)
  }

  function Capitals(texts: set<string>): set<string> {
    set s | s in texts && Strip(s) != "" :: Upper(Strip(s))
  }

  // The filter a job payload describes; None stands for the error its construction raises.
  function FilterOf(payload: Json): Option<Filter> {
    var statuses, places, towns := TextsAt(payload, "registration_statuses"), TextsAt(payload, "states"), TextsAt(payload, "municipality_codes");
    var codes, starts := TextsAt(payload, "cnae_codes"), TextsAt(payload, "cnae_prefixes");
    if statuses.None? || places.None? || towns.None? || codes.None? || starts.None? then None
    else
      var prefixes := Stripped(starts.value);
      if exists p :: p in prefixes && !ValidPrefix(p) then None
      else
        var secondary := Lookup(payload, "include_secondary_cnaes");
        Some(Filter(statuses.value, Capitals(places.value), towns.value, codes.value, prefixes, secondary.Some? && Truthy(secondary.value)))
  }

  // ------------------------------------------------------------------ row sequences

  // csv.reader yields an empty row for a blank line; readers skip those.
  function NonBlank(rows: seq<Row>): seq<Row> {
    if rows == [] then []
    else (if rows[0] == [] then [] else [rows[0]]) + NonBlank(rows[1..])
  }

  // All the parts, one after the other.
  function Flat(parts: seq<seq<Row>>): seq<Row> {
    if parts == [] then [] else NonBlank(parts[0]) + Flat(parts[1..])
  }

  // How the reader treats a row: a bad layout stops it, a match is yielded.
  function WantRow(row: Row, f: Filter): Verdict<Establishment> {
    match ParseRow(row)
    case None => Bad(BadLayout)
    case Some(e) => if f.Matches(e) then Hit(e) else Miss
  }

  function Wanted(f: Filter): Row -> Verdict<Establishment> {
    row => WantRow(row, f)
  }

  // What becomes of a row: a match that its columns cannot hold is refused when it is ingested.
  function JudgeRow(row: Row, f: Filter): Verdict<Establishment> {
    match WantRow(row, f)
    case Hit(e) => if Fits(e) then Hit(e) else Bad(Refused)
    case other => other
  }

  function Judge(f: Filter): Row -> Verdict<Establishment> {
    row => JudgeRow(row, f)
  }

  ghost predicate AllFit(es: seq<Establishment>) {
    forall i :: 0 <= i < |es| ==> Fits(es[i])
  }

  /** Rows are all taken exactly when they all have the layout and every match among them fits its columns. */
  lemma {:induction false} AllTakenExactly(rows: seq<Row>, f: Filter)
    ensures AllReadable(rows, Judge(f)) <==> AllReadable(rows, Wanted(f)) && AllFit(Hits(rows, Wanted(f)))
    ensures AllReadable(rows, Judge(f)) ==> Hits(rows, Judge(f)) == Hits(rows, Wanted(f))
  {
    hide ParseRow, Fits, AllReadable;
    if rows == [] {
      NoRowIsBad(Judge(f));
      NoRowIsBad(Wanted(f));
    } else {
      AllTakenExactly(rows[1..], f);
      AllReadableCons(rows, Judge(f));
      AllReadableCons(rows, Wanted(f));
      var hits := HitOf(Wanted(f)(rows[0]));
      AllFitAppend(hits, Hits(rows[1..], Wanted(f)));
      assert hits != [] ==> hits == [hits[0]];
    }
  }

  lemma NoRowIsBad(judge: Row -> Verdict<Establishment>)
    ensures AllReadable([], judge)
  {
  }

  lemma AllFitAppend(xs: seq<Establishment>, ys: seq<Establishment>)
    ensures AllFit(xs + ys) <==> AllFit(xs) && AllFit(ys)
  {
    hide Fits;
    var zs := xs + ys;
    assert forall i :: 0 <= i < |xs| ==> zs[i] == xs[i];
    assert forall i :: 0 <= i < |ys| ==> zs[|xs| + i] == ys[i];
  }

  // The columns of a match that becomes a candidate, a company, its CNAEs and a source record.
  predicate Fits(e: Establishment) {
    && |e.Cnpj()| <= 14 && |e.cnpjBasico| <= 8
    && |e.tradeName| <= 255 && |e.streetType| <= 40 && |e.street| <= 255 && |e.number| <= 40 && |e.complement| <= 160
    && |e.district| <= 160 && |e.municipalityCode| <= 16 && |e.state| <= 2 && |e.postalCode| <= 16 && |e.phone| <= 32 && |e.email| <= 254
    && |e.primaryCnae| <= 7 && (forall i :: 0 <= i < |e.secondaryCnaes| ==> |e.secondaryCnaes[i]| <= 7 && NoNul(e.secondaryCnaes[i]))
    && NoNul(e.Cnpj()) && NoNul(e.branchIdentifier) && NoNul(e.tradeName) && NoNul(e.registrationStatus)
    && NoNul(e.registrationStatusDate) && NoNul(e.activityStartedOn) && NoNul(e.primaryCnae) && NoNul(e.streetType) && NoNul(e.street)
    && NoNul(e.number) && NoNul(e.complement) && NoNul(e.district) && NoNul(e.postalCode) && NoNul(e.state) && NoNul(e.municipalityCode)
    && NoNul(e.phone) && NoNul(e.secondaryPhone) && NoNul(e.email)
  }

  lemma NonBlankNext(rows: seq<Row>, j: nat)
    requires j < |rows|
    ensures rows[j] == [] ==> NonBlank(rows[j..]) == NonBlank(rows[j + 1..])
    ensures rows[j] != [] ==> NonBlank(rows[j..]) == [rows[j]] + NonBlank(rows[j + 1..])
  {
    assert rows[j..][0] == rows[j] && rows[j..][1..] == rows[j + 1..];
  }

  lemma FlatFrom(parts: seq<seq<Row>>, i: nat)
    requires i < |parts|
    ensures Flat(parts[i..]) == NonBlank(parts[i]) + Flat(parts[i + 1..])
  {
    assert parts[i..][0] == parts[i] && parts[i..][1..] == parts[i + 1..];
  }
}
