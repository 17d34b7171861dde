/**
 Synchronising the manifest of the latest competence: the current dataset is replaced by a
 complete one or left as it was.  Listings are given; URL quoting and checksums are left out.
 */
module Manifest {
  import opened Basics
  import opened Text
  import opened Ordering

  datatype Entry = Entry(name: string, isCollection: bool, size: Option<int>, etag: string)

  datatype Kind = Establishments | Companies | Simples

  type FileKey = (Kind, nat)

  datatype FileRow = FileRow(url: string, size: int, etag: string)

  datatype Dataset = Dataset(isCurrent: bool, files: map<FileKey, FileRow>)

  datatype ManifestError = NoCompetence | ListingFailed | Incomplete | NoSource | BadSize

  // ------------------------------------------------------------------ classification

  predicate AllDigits(s: string) {
    s != "" && forall i :: 0 <= i < |s| ==> IsDigit(s[i])
  }

  function Number(s: string): nat
    requires s == "" || AllDigits(s)
  {
    if s == "" then 0
    else
      assert forall i :: 0 <= i < |s| - 1 ==> s[..|s| - 1][i] == s[i];
      10 * Number(s[..|s| - 1]) + (s[|s| - 1] as int - '0' as int)
  }

  // The digits between a prefix and ".zip".
  function PartOf(name: string, prefix: string): Option<nat> {
    if prefix <= name && |name| > |prefix| + 4 && name[|name| - 4..] == ".zip" && AllDigits(name[|prefix|..|name| - 4])
    then Some(Number(name[|prefix|..|name| - 4])) else None
  }

  // `_classify_file`
  function Classify(e: Entry): Option<FileKey> {
    if e.isCollection || e.size == None || e.size == Some(0) then None
    else
      var name := Lower(e.name);
      match PartOf(name, "estabelecimentos")
      case Some(n) => Some((Establishments, n))
      case None =>
        match PartOf(name, "empresas")
        case Some(n) => Some((Companies, n))
        case None => if name == "simples.zip" then Some((Simples, 0)) else None
  }

  // ------------------------------------------------------------- what the names say

  /** A part number is what its decimal digits say. */
  lemma {:induction false} NumberIsPlaces(s: string)
    requires s == "" || AllDigits(s)
    ensures Number(s) == Places(s)
  {
    if s != "" {
      var n := |s| - 1;
      assert forall i :: 0 <= i < n ==> s[..n][i] == s[i];
      NumberIsPlaces(s[..n]);
      PlacesAppend(s[..n], s[n]);
      assert s == s[..n] + [s[n]];
    }
  }

  // The same ASCII text, whichever letters are capitals.
  ghost predicate SameLetters(s: string, lower: string) {
    |s| == |lower| && forall i :: 0 <= i < |s| ==>
      lower[i] == if 'A' <= s[i] <= 'Z' then (s[i] as int + 32) as char else s[i]
  }

  // A stem, the decimal digits of n, and ".zip".
  ghost predicate Numbered(name: string, stem: string, n: nat) {
    && |name| > |stem| + 4
    && SameLetters(name[..|stem|], stem) && SameLetters(name[|name| - 4..], ".zip")
    && (forall i :: |stem| <= i < |name| - 4 ==> '0' <= name[i] <= '9')
    && Places(name[|stem|..|name| - 4]) == n
  }

  // A non-empty file whose name stands for the part.
  ghost predicate NamesPart(e: Entry, k: FileKey) {
    && !e.isCollection && e.size.Some? && e.size.value != 0
    && match k.0
       case Establishments => Numbered(e.name, "estabelecimentos", k.1)
       case Companies => Numbered(e.name, "empresas", k.1)
       case Simples => SameLetters(e.name, "simples.zip") && k.1 == 0
  }

  lemma LowerIs(s: string, lower: string)
    ensures Lower(s) == lower <==> SameLetters(s, lower)
  {
  }

  lemma LowerSlice(s: string, i: nat, j: nat)
    requires i <= j <= |s|
    ensures Lower(s)[i..j] == Lower(s[i..j])
  {
    hide LowerChar;
    assert forall x :: 0 <= x < j - i ==> s[i..j][x] == s[i + x];
  }

  lemma LowerKeepsDigits(s: string)
    ensures AllDigits(Lower(s)) <==> AllDigits(s)
    ensures AllDigits(s) ==> Lower(s) == s
  {
    assert forall i :: 0 <= i < |s| ==> (IsDigit(Lower(s)[i]) <==> IsDigit(s[i]));
  }

  lemma PartOfIsNumbered(name: string, stem: string, n: nat)
    ensures PartOf(Lower(name), stem) == Some(n) <==> Numbered(name, stem, n)
  {
    hide Lower, Number, Places, AllDigits;
    var low := Lower(name);
    if |name| > |stem| + 4 {
      var a, b := |stem|, |name| - 4;
      var digits := name[a..b];
      LowerSlice(name, 0, a);
      LowerSlice(name, b, |name|);
      LowerSlice(name, a, b);
      LowerIs(name[..a], stem);
      LowerIs(name[b..], ".zip");
      LowerKeepsDigits(digits);
      assert low[0..a] == low[..a] && name[0..a] == name[..a];
      assert low[b..|name|] == low[b..] && name[b..|name|] == name[b..];
      assert stem <= low <==> low[..a] == stem;
      DigitsBetween(name, a, b);
      if AllDigits(digits) {
        NumberIsPlaces(digits);
      }
    }
  }

  lemma DigitsBetween(name: string, a: nat, b: nat)
    requires a < b <= |name|
    ensures AllDigits(name[a..b]) <==> forall i :: a <= i < b ==> '0' <= name[i] <= '9'
  {
    assert forall i :: a <= i < b ==> name[i] == name[a..b][i - a];
    assert forall x :: 0 <= x < b - a ==> name[a..b][x] == name[a + x];
  }

  // The two stems, and "simples.zip", begin with different letters or go on differently.
  lemma StemsDiffer(name: string, m: nat, n: nat)
    ensures !(Numbered(name, "estabelecimentos", m) && Numbered(name, "empresas", n))
    ensures !(Numbered(name, "estabelecimentos", m) && SameLetters(name, "simples.zip"))
    ensures !(Numbered(name, "empresas", n) && SameLetters(name, "simples.zip"))
  {
    hide Places;
    if Numbered(name, "estabelecimentos", m) {
      assert "estabelecimentos"[1] == 's' && "empresas"[1] == 'm' && "simples.zip"[0] == 's' && "estabelecimentos"[0] == 'e';
      assert name[..|"estabelecimentos"|][0] == name[0] && name[..|"estabelecimentos"|][1] == name[1];
      assert name[..|"empresas"|][1] == name[1];
    }
    if Numbered(name, "empresas", n) {
      assert "empresas"[0] == 'e' && "simples.zip"[0] == 's';
      assert name[..|"empresas"|][0] == name[0];
    }
  }

  /** `_classify_file` gives an entry a part exactly when it is a non-empty file named after that part. */
  lemma ClassifiesByName(e: Entry, k: FileKey)
    ensures Classify(e) == Some(k) <==> NamesPart(e, k)
  {
    hide PartOf, Numbered, Lower, SameLetters;
    var low := Lower(e.name);
    LowerIs(e.name, "simples.zip");
    PartOfIsNumbered(e.name, "estabelecimentos", k.1);
    PartOfIsNumbered(e.name, "empresas", k.1);
    if n :| PartOf(low, "estabelecimentos") == Some(n) {
      PartOfIsNumbered(e.name, "estabelecimentos", n);
      StemsDiffer(e.name, n, k.1);
    }
    if n :| PartOf(low, "empresas") == Some(n) {
      PartOfIsNumbered(e.name, "empresas", n);
      StemsDiffer(e.name, k.1, n);
    }
  }

  // YYYY-MM
  predicate IsCompetence(s: string) {
    |s| == 7 && AllDigits(s[..4]) && s[4] == '-'
    && ((s[5] == '0' && '1' <= s[6] <= '9') || (s[5] == '1' && '0' <= s[6] <= '2'))
  }

  function Competences(es: seq<Entry>): (r: seq<string>)
    ensures forall c :: c in r <==> IsCompetence(c) && exists e :: e in es && e.isCollection && e.name == c
  {
    if es == [] then []
    else
      var rest := Competences(es[1..]);
      assert es == [es[0]] + es[1..];
      (if es[0].isCollection && IsCompetence(es[0].name) then [es[0].name] else []) + rest
  }

  // The last of the sorted names.
  function Greatest(names: seq<string>): (g: string)
    requires names != []
    ensures g in names && forall n :: n in names ==> Leq(n, g)
  {
    LeqTotal(names[0], names[0]);
    if |names| == 1 then names[0]
    else
      var rest := Greatest(names[1..]);
      LeqTotal(names[0], rest);
      assert names == [names[0]] + names[1..];
      if Leq(names[0], rest) then rest
      else
        assert forall n :: n in names[1..] ==> Leq(n, names[0]) by {
          forall n | n in names[1..] ensures Leq(n, names[0]) {
            LeqTransitive(n, rest, names[0]);
          }
        }
        names[0]
  }

  datatype Found = Found(entry: Entry, key: FileKey)

  function Classified(es: seq<Entry>): (r: seq<Found>)
    ensures forall x :: x in r ==> Classify(x.entry) == Some(x.key)
  {
    if es == [] then []
    else (match Classify(es[0]) case Some(k) => [Found(es[0], k)] case None => []) + Classified(es[1..])
  }

  function Parts(cs: seq<Found>, kind: Kind): set<nat> {
    set i | 0 <= i < |cs| && cs[i].key.0 == kind :: cs[i].key.1
  }

  // `set(range(n))`
  function Range(n: nat): (s: set<nat>)
    ensures forall i :: i in s <==> 0 <= i < n
  {
    if n == 0 then {} else Range(n - 1) + {n - 1}
  }

  predicate IsComplete(cs: seq<Found>) {
    Parts(cs, Establishments) == Range(10) && Parts(cs, Companies) == Range(10) && Parts(cs, Simples) != {}
  }

  // ----------------------------------------------------------------- what a sync does

  function RowOf(competence: string, e: Entry): FileRow
    requires e.size.Some?
  {
    FileRow(competence + "/" + e.name, e.size.value, e.etag)
  }

  predicate Sized(cs: seq<Found>) {
    forall i :: 0 <= i < |cs| ==> cs[i].entry.size.Some? && cs[i].entry.size.value > 0
  }

  // One row for each part; of repeated parts the last one listed stays.
  function FilesOf(competence: string, cs: seq<Found>): map<FileKey, FileRow>
    requires Sized(cs)
  {
    if cs == [] then map[]
    else FilesOf(competence, cs[..|cs| - 1])[cs[|cs| - 1].key := RowOf(competence, cs[|cs| - 1].entry)]
  }

  datatype Sync = Sync(competence: string, files: seq<Found>)

  // What the listings amount to: a competence to install, or why nothing changes.
  function Read(root: seq<Entry>, listings: map<string, seq<Entry>>, enabled: bool): (r: Result<Sync, ManifestError>)
    ensures r.Ok? ==> Sized(r.value.files)
  {
    var names := Competences(root);
    if names == [] then Err(NoCompetence)
    else if Greatest(names) !in listings then Err(ListingFailed)
    else
      var cs := Classified(listings[Greatest(names)]);
      if !IsComplete(cs) then Err(Incomplete)
      else if !enabled then Err(NoSource)
      else if !Sized(cs) then Err(BadSize)
      else Ok(Sync(Greatest(names), cs))
  }

  function Install(ds: map<string, Dataset>, s: Sync): map<string, Dataset>
    requires Sized(s.files)
  {
    map d | d in ds.Keys + {s.competence} ::
      if d == s.competence then Dataset(true, FilesOf(s.competence, s.files)) else ds[d].(isCurrent := false)
  }

  // --------------------------------------------------------- when a sync installs

  // Four digits, a hyphen, and two digits from 01 to 12.
  ghost predicate IsMonth(s: string) {
    && |s| == 7 && (forall i :: 0 <= i < 7 && i != 4 ==> '0' <= s[i] <= '9') && s[4] == '-'
    && 1 <= Places(s[5..]) <= 12
  }

  // Months since the year 0.
  ghost function MonthOf(s: string): int {
    if |s| == 7 then 12 * Places(s[..4]) + Places(s[5..]) else 0
  }

  lemma PlacesOfTwo(s: string)
    requires |s| == 2
    ensures Places(s) == 10 * (s[0] as int - '0' as int) + (s[1] as int - '0' as int)
  {
    assert Places(s[1..]) == s[1] as int - '0' as int by { assert s[1..][1..] == "" && TenTo(0) == 1; }
    assert TenTo(1) == 10;
  }

  lemma PlacesOfFour(s: string)
    requires |s| == 4
    ensures Places(s) == 100 * Places(s[..2]) + Places(s[2..])
  {
    PlacesOfTwo(s[..2]);
    assert s[1..][1..] == s[2..];
    assert TenTo(1) == 10 && TenTo(2) == 100 && TenTo(3) == 1000;
    assert Places(s[1..]) == (s[1] as int - '0' as int) * 100 + Places(s[2..]);
  }

  lemma CompetenceIsMonth(s: string)
    ensures IsCompetence(s) <==> IsMonth(s)
  {
    if |s| == 7 {
      PlacesOfTwo(s[5..]);
      assert s[5..][0] == s[5] && s[5..][1] == s[6];
      assert forall i :: 0 <= i < 4 ==> s[..4][i] == s[i];
    }
  }

  lemma LeqStep(a: string, b: string, i: nat)
    requires |a| == |b| && i < |a|
    ensures Leq(a[i..], b[i..]) <==> a[i] < b[i] || (a[i] == b[i] && Leq(a[i + 1..], b[i + 1..]))
  {
    assert a[i..][1..] == a[i + 1..] && b[i..][1..] == b[i + 1..];
  }

  /** The order of the names is the order of the months. */
  lemma LaterName(a: string, b: string)
    requires IsMonth(a) && IsMonth(b)
    ensures Leq(a, b) <==> MonthOf(a) <= MonthOf(b)
  {
    hide Leq, Places;
    MonthDigits(a);
    MonthDigits(b);
    assert a[0..] == a && b[0..] == b;
    LeqStep(a, b, 0);
    LeqStep(a, b, 1);
    LeqStep(a, b, 2);
    LeqStep(a, b, 3);
    LeqStep(a, b, 4);
    LeqStep(a, b, 5);
    LeqStep(a, b, 6);
    assert Leq(a[7..], b[7..]) by { LeqTotal(a[7..], b[7..]); assert a[7..] == b[7..]; }
    Digits4(a, b);
  }

  function At(s: string, i: nat): int {
    if i < |s| then s[i] as int - '0' as int else 0
  }

  lemma MonthDigits(s: string)
    requires |s| == 7
    ensures Places(s[5..]) == 10 * At(s, 5) + At(s, 6)
    ensures MonthOf(s) == 12 * (1000 * At(s, 0) + 100 * At(s, 1) + 10 * At(s, 2) + At(s, 3)) + 10 * At(s, 5) + At(s, 6)
  {
    hide Places;
    var y := s[..4];
    PlacesOfFour(y);
    PlacesOfTwo(y[..2]);
    PlacesOfTwo(y[2..]);
    PlacesOfTwo(s[5..]);
  }

  // Months compare by their first different digit.
  lemma Digits4(a: string, b: string)
    requires IsMonth(a) && IsMonth(b)
    requires forall s :: s in {a, b} ==>
      && MonthOf(s) == 12 * (1000 * At(s, 0) + 100 * At(s, 1) + 10 * At(s, 2) + At(s, 3)) + 10 * At(s, 5) + At(s, 6)
      && 1 <= 10 * At(s, 5) + At(s, 6) <= 12
    ensures MonthOf(a) <= MonthOf(b) <==>
      || a[0] < b[0] || (a[0] == b[0] && (a[1] < b[1] || (a[1] == b[1] && (a[2] < b[2] || (a[2] == b[2] &&
         (a[3] < b[3] || (a[3] == b[3] && (a[5] < b[5] || (a[5] == b[5] && a[6] <= b[6])))))))))
  {
    hide MonthOf, Places;
    assert a in {a, b} && b in {a, b};
  }

  ghost predicate ListsMonth(root: seq<Entry>, c: string) {
    IsMonth(c) && exists e :: e in root && e.isCollection && e.name == c
  }

  ghost predicate HasPart(es: seq<Entry>, k: FileKey) {
    exists e :: e in es && NamesPart(e, k)
  }

  // Part 0 to 9 of the establishments and of the companies, or the Simples file.
  ghost predicate IsPart(k: FileKey) {
    if k.0 == Simples then k.1 == 0 else k.1 < 10
  }

  ghost predicate IsLatest(root: seq<Entry>, c: string) {
    ListsMonth(root, c) && forall n :: ListsMonth(root, n) ==> MonthOf(n) <= MonthOf(c)
  }

  // All the parts, and no others.
  ghost predicate AllParts(es: seq<Entry>) {
    (forall k :: IsPart(k) ==> HasPart(es, k)) && (forall k :: HasPart(es, k) ==> IsPart(k))
  }

  ghost predicate PositiveSizes(es: seq<Entry>) {
    forall e, k :: e in es && NamesPart(e, k) ==> e.size.value > 0
  }

  // c is the latest month listed, its listing was read, and it has all the parts, no others, and no negative size.
  ghost predicate Installable(root: seq<Entry>, listings: map<string, seq<Entry>>, enabled: bool, c: string) {
    IsLatest(root, c) && c in listings && enabled && AllParts(listings[c]) && PositiveSizes(listings[c])
  }

  lemma CompetencesAreMonths(root: seq<Entry>, c: string)
    ensures c in Competences(root) <==> ListsMonth(root, c)
  {
    hide Competences, IsMonth, IsCompetence;
    CompetenceIsMonth(c);
  }

  lemma GreatestIsLatest(root: seq<Entry>)
    requires Competences(root) != []
    ensures IsLatest(root, Greatest(Competences(root)))
  {
    hide Competences, Greatest, IsMonth, MonthOf, Leq;
    var names := Competences(root);
    var c := Greatest(names);
    CompetencesAreMonths(root, c);
    forall n | ListsMonth(root, n) ensures MonthOf(n) <= MonthOf(c) {
      CompetencesAreMonths(root, n);
      LaterName(n, c);
    }
  }

  // Every entry that names a part is among the classified ones, and nothing else is.
  lemma {:induction false} ClassifiedAreNamed(es: seq<Entry>, e: Entry, k: FileKey)
    ensures Found(e, k) in Classified(es) <==> e in es && NamesPart(e, k)
  {
    hide Classify, NamesPart;
    if es != [] {
      ClassifiedAreNamed(es[1..], e, k);
      assert es == [es[0]] + es[1..];
      ClassifiesByName(es[0], k);
    }
  }

  lemma InPartsIsNamed(es: seq<Entry>, k: FileKey)
    ensures k.1 in Parts(Classified(es), k.0) <==> HasPart(es, k)
  {
    hide Classified, NamesPart;
    var cs := Classified(es);
    if k.1 in Parts(cs, k.0) {
      var i :| 0 <= i < |cs| && cs[i].key.0 == k.0 && cs[i].key.1 == k.1;
      assert cs[i] == Found(cs[i].entry, k) && cs[i] in cs;
      ClassifiedAreNamed(es, cs[i].entry, k);
    }
    if HasPart(es, k) {
      var e :| e in es && NamesPart(e, k);
      ClassifiedAreNamed(es, e, k);
      var i :| 0 <= i < |cs| && cs[i] == Found(e, k);
      assert cs[i].key.0 == k.0 && cs[i].key.1 == k.1;
    }
  }

  // Complete: each part of the competence is named, and no numbered part beyond them.
  lemma CompleteIsNamed(es: seq<Entry>)
    ensures IsComplete(Classified(es)) <==> AllParts(es)
  {
    hide Classified, NamesPart, Parts, Range, HasPart;
    var cs := Classified(es);
    forall k: FileKey ensures k.1 in Parts(cs, k.0) <==> HasPart(es, k) {
      InPartsIsNamed(es, k);
    }
    forall k ensures HasPart(es, k) && k.0 == Simples ==> k.1 == 0 {
      SimplesNamesZero(es, k);
    }
    if IsComplete(cs) {
      forall k ensures IsPart(k) <==> HasPart(es, k) {
        assert k.1 in Parts(cs, k.0) <==> HasPart(es, k);
        if k.0 == Simples {
          var m :| m in Parts(cs, Simples);
          var key: FileKey := (Simples, m);
          assert key.1 in Parts(cs, key.0);
          assert HasPart(es, key);
        }
      }
    }
    if AllParts(es) {
      forall n: nat ensures n in Parts(cs, Establishments) <==> n < 10 {
        var key: FileKey := (Establishments, n);
        assert key.1 in Parts(cs, key.0) <==> HasPart(es, key);
        assert IsPart(key) <==> n < 10;
      }
      forall n: nat ensures n in Parts(cs, Companies) <==> n < 10 {
        var key: FileKey := (Companies, n);
        assert key.1 in Parts(cs, key.0) <==> HasPart(es, key);
        assert IsPart(key) <==> n < 10;
      }
      var key: FileKey := (Simples, 0);
      assert IsPart(key) && HasPart(es, key);
      assert key.1 in Parts(cs, key.0);
    }
  }

  lemma SimplesNamesZero(es: seq<Entry>, k: FileKey)
    ensures HasPart(es, k) && k.0 == Simples ==> k.1 == 0
  {
  }

  lemma SizedIsPositive(es: seq<Entry>)
    ensures Sized(Classified(es)) <==> PositiveSizes(es)
  {
    hide Classified, Numbered, SameLetters;
    var cs := Classified(es);
    forall e, k ensures Found(e, k) in cs <==> e in es && NamesPart(e, k) {
      ClassifiedAreNamed(es, e, k);
    }
    if PositiveSizes(es) {
      forall i | 0 <= i < |cs| ensures cs[i].entry.size.Some? && cs[i].entry.size.value > 0 {
        assert cs[i] == Found(cs[i].entry, cs[i].key);
      }
    }
    if Sized(cs) {
      forall e, k | e in es && NamesPart(e, k) ensures e.size.value > 0 {
        assert Found(e, k) in cs;
      }
    }
  }

  /** A sync succeeds exactly for the one competence that is installable, and a refused one says what is missing. */
  lemma SyncsExactly(root: seq<Entry>, listings: map<string, seq<Entry>>, enabled: bool, c: string)
    ensures (Read(root, listings, enabled).Ok? && Read(root, listings, enabled).value.competence == c) <==> Installable(root, listings, enabled, c)
    ensures Read(root, listings, enabled) == Err(NoCompetence) <==> forall n :: !ListsMonth(root, n)
    ensures IsLatest(root, c) ==>
      && (Read(root, listings, enabled) == Err(ListingFailed) <==> c !in listings)
      && (Read(root, listings, enabled) == Err(Incomplete) <==> c in listings && !AllParts(listings[c]))
      && (Read(root, listings, enabled) == Err(NoSource) <==> c in listings && AllParts(listings[c]) && !enabled)
      && (Read(root, listings, enabled) == Err(BadSize) <==> c in listings && AllParts(listings[c]) && enabled && !PositiveSizes(listings[c]))
  {
    hide Competences, Greatest, Classified, IsComplete, Sized, IsMonth, MonthOf, AllParts, PositiveSizes, Leq;
    forall n ensures n in Competences(root) <==> ListsMonth(root, n) {
      CompetencesAreMonths(root, n);
    }
    if Competences(root) != [] {
      GreatestIsLatest(root);
      var g := Greatest(Competences(root));
      if g in listings {
        CompleteIsNamed(listings[g]);
        SizedIsPositive(listings[g]);
      }
      if IsLatest(root, c) {
        SameMonthSameName(root, c, g);
      }
    }
  }

  lemma SameMonthSameName(root: seq<Entry>, c: string, g: string)
    requires ListsMonth(root, c) && ListsMonth(root, g) && MonthOf(g) <= MonthOf(c) && MonthOf(c) <= MonthOf(g)
    ensures c == g
  {
    hide IsMonth, MonthOf, Leq;
    LaterName(c, g);
    LaterName(g, c);
    LeqAntisymmetric(c, g);
  }

  ghost predicate IsLastNaming(es: seq<Entry>, i: nat, k: FileKey) {
    i < |es| && NamesPart(es[i], k) && forall j :: i < j < |es| ==> !NamesPart(es[j], k)
  }

  // Exactly the parts, each with the address, size and tag of the last entry that names it.
  ghost predicate FilesAreNamed(files: map<FileKey, FileRow>, c: string, es: seq<Entry>) {
    && (forall k :: k in files <==> IsPart(k))
    && (forall k, i: nat :: IsLastNaming(es, i, k) && k in files ==>
          es[i].size.Some? && files[k] == FileRow(c + "/" + es[i].name, es[i].size.value, es[i].etag))
  }

  lemma {:induction false} ClassifiedAppend(es: seq<Entry>, e: Entry)
    ensures Classified(es + [e]) == Classified(es) + match Classify(e) case Some(k) => [Found(e, k)] case None => []
  {
    hide Classify;
    if es == [] {
      assert [e][1..] == [] && es + [e] == [e];
    } else {
      assert (es + [e])[1..] == es[1..] + [e];
      ClassifiedAppend(es[1..], e);
    }
  }

  lemma {:induction false} LastNamedIsStored(es: seq<Entry>, c: string, k: FileKey, i: nat)
    requires Sized(Classified(es)) && IsLastNaming(es, i, k)
    ensures k in FilesOf(c, Classified(es)) && es[i].size.Some?
    ensures FilesOf(c, Classified(es))[k] == FileRow(c + "/" + es[i].name, es[i].size.value, es[i].etag)
  {
    hide Classify, Classified, Numbered, SameLetters;
    var n := |es| - 1;
    var init, e := es[..n], es[n];
    assert es == init + [e];
    ClassifiedAppend(init, e);
    ClassifiesByName(e, k);
    SizedPrefix(es);
    if i < n {
      LastNamedIsStored(init, c, k, i);
    }
    var cs := Classified(es);
    if Classify(e).Some? {
      assert cs == Classified(init) + [Found(e, Classify(e).value)];
      assert cs[..|cs| - 1] == Classified(init) && cs[|cs| - 1] == Found(e, Classify(e).value);
    } else {
      assert cs == Classified(init);
    }
  }

  lemma SizedPrefix(es: seq<Entry>)
    requires es != [] && Sized(Classified(es))
    ensures Sized(Classified(es[..|es| - 1]))
  {
    hide Classify, Classified;
    assert es == es[..|es| - 1] + [es[|es| - 1]];
    ClassifiedAppend(es[..|es| - 1], es[|es| - 1]);
    var cs, init := Classified(es), Classified(es[..|es| - 1]);
    assert forall i :: 0 <= i < |init| ==> init[i] == cs[i];
  }

  lemma {:induction false} StoredAreListed(c: string, cs: seq<Found>, k: FileKey)
    requires Sized(cs)
    ensures k in FilesOf(c, cs) <==> k.1 in Parts(cs, k.0)
  {
    if cs != [] {
      var init := cs[..|cs| - 1];
      StoredAreListed(c, init, k);
      assert k.1 in Parts(cs, k.0) <==> k.1 in Parts(init, k.0) || cs[|cs| - 1].key == k by {
        if k.1 in Parts(cs, k.0) {
          var i :| 0 <= i < |cs| && cs[i].key.0 == k.0 && cs[i].key.1 == k.1;
          assert i < |cs| - 1 ==> init[i] == cs[i];
        }
        if k.1 in Parts(init, k.0) {
          var i :| 0 <= i < |init| && init[i].key.0 == k.0 && init[i].key.1 == k.1;
          assert cs[i] == init[i];
        }
      }
    }
  }

  lemma InstalledAreNamed(root: seq<Entry>, listings: map<string, seq<Entry>>, enabled: bool, s: Sync)
    requires Read(root, listings, enabled) == Ok(s)
    ensures s.competence in listings && FilesAreNamed(FilesOf(s.competence, s.files), s.competence, listings[s.competence])
  {
    hide Competences, Greatest, Classified, IsComplete, Parts, FilesOf, IsMonth, MonthOf, NamesPart, HasPart, IsPart;
    var es := listings[s.competence];
    CompleteIsNamed(es);
    forall k ensures k in FilesOf(s.competence, s.files) <==> IsPart(k) {
      StoredAreListed(s.competence, s.files, k);
      InPartsIsNamed(es, k);
      assert HasPart(es, k) <==> IsPart(k);
    }
    forall k, i: nat | IsLastNaming(es, i, k)
      ensures k in FilesOf(s.competence, s.files) && es[i].size.Some?
      ensures FilesOf(s.competence, s.files)[k] == FileRow(s.competence + "/" + es[i].name, es[i].size.value, es[i].etag)
    {
      LastNamedIsStored(es, s.competence, k, i);
    }
  }

  class ManifestStore {
    var datasets: map<string, Dataset>

    constructor ()
      ensures datasets == map[]
    {
      datasets := map[];
    }

    // One row for each file, then drop the rows of parts no longer listed.
    method ReplaceFiles(stored: map<FileKey, FileRow>, competence: string, cs: seq<Found>) returns (files: map<FileKey, FileRow>)
      requires Sized(cs)
      ensures files == FilesOf(competence, cs)
    {
      hide Classify, Lower;
      files := stored;
      var seen: set<FileKey> := {};
      for i := 0 to |cs|
        invariant seen == FilesOf(competence, cs[..i]).Keys <= files.Keys
        invariant forall k :: k in seen ==> files[k] == FilesOf(competence, cs[..i])[k]
      {
        assert cs[..i + 1][..i] == cs[..i];
        var file := cs[i];
        files := files[file.key := RowOf(competence, file.entry)];
        seen := seen + {file.key};
      }
      assert cs[..|cs|] == cs;
      files := map k | k in files && k in seen :: files[k];
    }

    /** `sync_latest_manifest`: one transaction. */
    method SyncLatest(root: seq<Entry>, listings: map<string, seq<Entry>>, enabled: bool)
        returns (r: Result<string, ManifestError>)
      modifies this
      ensures match Read(root, listings, enabled)
              case Ok(s) => r == Ok(s.competence) && datasets == Install(old(datasets), s)
              case Err(e) => r == Err(e) && datasets == old(datasets)
      ensures forall c :: r == Ok(c) <==> Installable(root, listings, enabled, c)
      ensures r.Ok? ==>
        var c := r.value;
        && c in listings && c in datasets && datasets[c].isCurrent && FilesAreNamed(datasets[c].files, c, listings[c])
        && datasets.Keys == old(datasets).Keys + {c}
        && forall d :: d in old(datasets) && d != c ==> datasets[d] == old(datasets)[d].(isCurrent := false)
    {
      hide Classify, Lower, FilesOf, Range, IsCompetence, Competences, Sized, Parts, Installable, FilesAreNamed;
      forall c ensures (Read(root, listings, enabled).Ok? && Read(root, listings, enabled).value.competence == c) <==> Installable(root, listings, enabled, c) {
        SyncsExactly(root, listings, enabled, c);
      }
      if Read(root, listings, enabled).Ok? {
        InstalledAreNamed(root, listings, enabled, Read(root, listings, enabled).value);
      }
      var competences := Competences(root);
      if competences == [] {
        return Err(NoCompetence);
      }
      var competence := Greatest(competences);
      if competence !in listings {
        return Err(ListingFailed);
      }
      var classified := Classified(listings[competence]);
      if Parts(classified, Establishments) != Range(10) || Parts(classified, Companies) != Range(10) || Parts(classified, Simples) == {} {
        return Err(Incomplete);
      }
      if !enabled {
        return Err(NoSource);
      }
      if !Sized(classified) {
        // the row constraint on sizes aborts the transaction
        return Err(BadSize);
      }
      var stored := if competence in datasets then datasets[competence].files else map[];
      var others := map d | d in datasets && d != competence :: datasets[d].(isCurrent := false);
      var files := ReplaceFiles(stored, competence, classified);
      datasets := others[competence := Dataset(true, files)];
      return Ok(competence);
    }
  }

  // --------------------------------------------------------------------- the invariant

  function PartKeys(kind: Kind, n: nat): set<FileKey> {
    set i | 0 <= i < n :: (kind, i)
  }

  function Expected(): set<FileKey> {
    PartKeys(Establishments, 10) + PartKeys(Companies, 10) + {(Simples, 0)}
  }

  // Exactly the twenty-one parts of a competence, none of them empty.
  ghost predicate Whole(files: map<FileKey, FileRow>) {
    files.Keys == Expected() && |files.Keys| == 21 && forall k :: k in files ==> files[k].size > 0
  }

  lemma {:induction false} PartKeysCount(kind: Kind, n: nat)
    ensures |PartKeys(kind, n)| == n
  {
    if n > 0 {
      PartKeysCount(kind, n - 1);
      assert PartKeys(kind, n) == PartKeys(kind, n - 1) + {(kind, n - 1)};
    }
  }

  lemma TwentyOne()
    ensures |Expected()| == 21
  {
    PartKeysCount(Establishments, 10);
    PartKeysCount(Companies, 10);
    var e, c := PartKeys(Establishments, 10), PartKeys(Companies, 10);
    assert e !! c && (Simples, 0) !in e + c;
    assert |e + c| == 20;
  }

  ghost predicate Listed(cs: seq<Found>, k: FileKey) {
    exists i :: 0 <= i < |cs| && cs[i].key == k
  }

  lemma {:induction false} FilesOfIs(competence: string, cs: seq<Found>)
    requires Sized(cs)
    ensures forall k :: k in FilesOf(competence, cs) <==> Listed(cs, k)
    ensures forall k :: k in FilesOf(competence, cs) ==> FilesOf(competence, cs)[k].size > 0
  {
    if cs != [] {
      var init := cs[..|cs| - 1];
      FilesOfIs(competence, init);
      assert cs == init + [cs[|cs| - 1]];
      forall k ensures k in FilesOf(competence, cs) <==> Listed(cs, k) {
        if Listed(init, k) {
          var i :| 0 <= i < |init| && init[i].key == k;
          assert cs[i].key == k;
        }
        assert cs[|cs| - 1].key == k ==> Listed(cs, k);
      }
    }
  }

  lemma InParts(cs: seq<Found>, k: FileKey)
    ensures k.1 in Parts(cs, k.0) <==> Listed(cs, k)
  {
    if k.1 in Parts(cs, k.0) {
      var i :| 0 <= i < |cs| && cs[i].key.0 == k.0 && cs[i].key.1 == k.1;
      assert cs[i].key == k;
    }
  }

  lemma SimplesIsPartZero(es: seq<Entry>, i: nat)
    requires i < |Classified(es)| && Classified(es)[i].key.0 == Simples
    ensures Classified(es)[i].key == (Simples, 0)
  {
    var x := Classified(es)[i];
    assert x in Classified(es);
    assert Classify(x.entry) == Some(x.key);
  }

  lemma ExpectedKey(k: FileKey)
    ensures k in Expected() <==> if k.0 == Simples then k.1 == 0 else k.1 in Range(10)
  {
    match k.0
    case Establishments => assert k in PartKeys(Establishments, 10) <==> k.1 < 10;
    case Companies => assert k in PartKeys(Companies, 10) <==> k.1 < 10;
    case Simples =>
  }

  lemma OneSimples(es: seq<Entry>, n: nat)
    requires IsComplete(Classified(es))
    ensures Listed(Classified(es), (Simples, n)) <==> n == 0
  {
    hide Classify, Parts, Range;
    var cs := Classified(es);
    var m :| m in Parts(cs, Simples);
    InParts(cs, (Simples, m));
    var j :| 0 <= j < |cs| && cs[j].key == (Simples, m);
    SimplesIsPartZero(es, j);
    if Listed(cs, (Simples, n)) {
      var i :| 0 <= i < |cs| && cs[i].key == (Simples, n);
      SimplesIsPartZero(es, i);
    }
  }

  lemma CompleteKeys(es: seq<Entry>, k: FileKey)
    requires IsComplete(Classified(es))
    ensures Listed(Classified(es), k) <==> k in Expected()
  {
    hide Classify, Parts, Range, Classified, Expected;
    InParts(Classified(es), k);
    ExpectedKey(k);
    if k.0 == Simples {
      OneSimples(es, k.1);
    }
  }

  /** A listing that passes the checks yields exactly the 21 expected files, repeats or not. */
  lemma CompleteMeansWhole(es: seq<Entry>, competence: string)
    requires IsComplete(Classified(es)) && Sized(Classified(es))
    ensures Whole(FilesOf(competence, Classified(es)))
  {
    hide Classified, Expected, FilesOf, IsComplete;
    var cs := Classified(es);
    FilesOfIs(competence, cs);
    TwentyOne();
    forall k ensures k in FilesOf(competence, cs) <==> k in Expected() {
      CompleteKeys(es, k);
    }
    assert FilesOf(competence, cs).Keys == Expected();
  }

  /** Of a part listed more than once the last entry is stored. */
  lemma {:induction false} LastEntryWins(competence: string, cs: seq<Found>, i: nat)
    requires Sized(cs) && i < |cs| && forall j :: i < j < |cs| ==> cs[j].key != cs[i].key
    ensures cs[i].key in FilesOf(competence, cs) && FilesOf(competence, cs)[cs[i].key] == RowOf(competence, cs[i].entry)
  {
    if i < |cs| - 1 {
      var init := cs[..|cs| - 1];
      LastEntryWins(competence, init, i);
    }
  }

  ghost predicate Inv(ds: map<string, Dataset>) {
    && (forall a, b :: a in ds && b in ds && ds[a].isCurrent && ds[b].isCurrent ==> a == b)
    && (forall d :: d in ds ==> Whole(ds[d].files))
  }

  // One attempt: the listings it got, and the datasets before and after.
  datatype Attempt = Attempt(root: seq<Entry>, listings: map<string, seq<Entry>>, enabled: bool)

  function After(ds: map<string, Dataset>, a: Attempt): map<string, Dataset> {
    match Read(a.root, a.listings, a.enabled)
    case Ok(s) => Install(ds, s)
    case Err(_) => ds
  }

  function AfterAll(ds: map<string, Dataset>, attempts: seq<Attempt>): map<string, Dataset> {
    if attempts == [] then ds else After(AfterAll(ds, attempts[..|attempts| - 1]), attempts[|attempts| - 1])
  }

  lemma AfterKeepsInv(ds: map<string, Dataset>, a: Attempt)
    requires Inv(ds)
    ensures Inv(After(ds, a))
  {
    hide Classify, Whole, Competences, Classified, IsComplete, FilesOf;
    match Read(a.root, a.listings, a.enabled)
    case Ok(s) => CompleteMeansWhole(a.listings[s.competence], s.competence);
    case Err(_) =>
  }

  /**
   Over any run of succeeding and failing syncs at most one dataset is current, and every dataset
   has exactly the 21 files of a complete competence.
   */
  lemma {:induction false} SyncsKeepInv(attempts: seq<Attempt>)
    ensures Inv(AfterAll(map[], attempts))
  {
    hide After, Whole;
    if attempts != [] {
      SyncsKeepInv(attempts[..|attempts| - 1]);
      AfterKeepsInv(AfterAll(map[], attempts[..|attempts| - 1]), attempts[|attempts| - 1]);
    }
  }

  /**
   A failing sync changes nothing; a succeeding one makes the latest listed competence the one
   current dataset and leaves the files of every other dataset alone.
   */
  lemma CompleteOrUnchanged(ds: map<string, Dataset>, a: Attempt)
    ensures Read(a.root, a.listings, a.enabled).Err? ==> After(ds, a) == ds
    ensures Read(a.root, a.listings, a.enabled).Ok? ==>
      var c := Read(a.root, a.listings, a.enabled).value.competence;
      && c in Competences(a.root) && (forall n :: n in Competences(a.root) ==> Leq(n, c))
      && c in After(ds, a) && After(ds, a)[c].isCurrent && Whole(After(ds, a)[c].files)
      && (forall d :: d in After(ds, a) && After(ds, a)[d].isCurrent ==> d == c)
      && (forall d :: d in ds && d != c ==> d in After(ds, a) && After(ds, a)[d].files == ds[d].files)
  {
    hide Classify, Whole, Competences, Classified, IsComplete, FilesOf;
    match Read(a.root, a.listings, a.enabled)
    case Ok(s) => CompleteMeansWhole(a.listings[s.competence], s.competence);
    case Err(_) =>
  }
}
