/**
 What the filters of a query say: which rows of an establishment file they select, read off the
 payload and the columns, and what normalising keeps of them.
 */
module FilterMeaning {
  import opened Basics
  import opened Ordering
  import opened JsonText
  import opened Text
  import opened LimitedScan
  import opened Establishments
  import opened Filters

  // ------------------------------------------------------------ the payload, looked up

  ghost predicate HoldsAt(payload: Json, i: nat, key: string, v: Json) {
    && payload.Obj? && i < |payload.entries| && payload.entries[i] == Keyed(key, v)
    && forall j :: 0 <= j < i ==> payload.entries[j].key != key
  }

  // The mapping has the key, with this value.
  ghost predicate Holds(payload: Json, key: string, v: Json) {
    exists i: nat :: HoldsAt(payload, i, key, v)
  }

  // The text x is an item of a list, a key of a mapping or a character of a text.
  ghost predicate Yields(v: Json, x: string) {
    match v
    case Arr(items) => exists i :: 0 <= i < |items| && items[i] == Str(x)
    case Str(s) => exists i :: 0 <= i < |s| && [s[i]] == x
    case Obj(es) => exists i :: 0 <= i < |es| && es[i].key == x
    case _ => false
  }

  // The text x is offered under the key.
  ghost predicate Offers(payload: Json, key: string, x: string) {
    exists v :: Holds(payload, key, v) && Yields(v, x)
  }

  // The value under the key cannot be iterated, or holds something that is no text.
  ghost predicate Unusable(payload: Json, key: string) {
    exists v :: Holds(payload, key, v) && !v.Str? && !v.Obj? && !(v.Arr? && forall i :: 0 <= i < |v.items| ==> v.items[i].Str?)
  }

  // The text x is offered under the key and is not blank.
  ghost predicate OffersText(payload: Json, key: string, x: string) {
    Offers(payload, key, x) && Strip(x) != ""
  }

  // ------------------------------------------------------------------ the criteria

  ghost predicate StatusWanted(payload: Json, status: string) {
    (forall x :: !Offers(payload, "registration_statuses", x)) || Offers(payload, "registration_statuses", status)
  }

  ghost predicate StateWanted(payload: Json, state: string) {
    (forall x :: !OffersText(payload, "states", x)) || exists x :: OffersText(payload, "states", x) && Upper(Strip(x)) == state
  }

  ghost predicate TownWanted(payload: Json, town: string) {
    (forall x :: !Offers(payload, "municipality_codes", x)) || Offers(payload, "municipality_codes", town)
  }

  // The code is offered, or begins with a prefix that is.
  ghost predicate CodeWanted(payload: Json, code: string) {
    Offers(payload, "cnae_codes", code) || exists x :: OffersText(payload, "cnae_prefixes", x) && Strip(x) <= code
  }

  ghost predicate WantsSecondary(payload: Json) {
    exists v :: Holds(payload, "include_secondary_cnaes", v)
      && v != Null && v != Bool(false) && v != Str("") && v != Arr([]) && v != Obj([]) && !(v.Num? && IsZeroToken(v.token))
  }

  ghost predicate ActivityWanted(payload: Json, primary: string, others: string) {
    || ((forall x :: !Offers(payload, "cnae_codes", x)) && (forall x :: !OffersText(payload, "cnae_prefixes", x)))
    || CodeWanted(payload, primary)
    || (WantsSecondary(payload) && exists code :: HasPiece(others, code) && CodeWanted(payload, code))
  }

  // All the criteria, on the columns of a row.
  ghost predicate Selected(payload: Json, row: Row)
    requires |row| == 30
  {
    && StatusWanted(payload, Strip(row[5])) && StateWanted(payload, Upper(Strip(row[19]))) && TownWanted(payload, Strip(row[20]))
    && ActivityWanted(payload, Strip(row[11]), row[12])
  }

  // ------------------------------------------------------------------------ proofs

  lemma {:induction false} LookupEntryIs(es: seq<Keyed<Json>>, key: string, v: Json)
    ensures LookupEntry(es, key) == Some(v) <==> Holds(Obj(es), key, v)
  {
    if es != [] {
      if es[0].key == key {
        assert es[0] == Keyed(key, v) ==> HoldsAt(Obj(es), 0, key, v);
      } else {
        LookupEntryIs(es[1..], key, v);
        if i: nat :| HoldsAt(Obj(es), i, key, v) {
          assert HoldsAt(Obj(es[1..]), i - 1, key, v);
        }
        if i: nat :| HoldsAt(Obj(es[1..]), i, key, v) {
          assert HoldsAt(Obj(es), i + 1, key, v);
        }
      }
    }
  }

  lemma LookupIs(payload: Json, key: string, v: Json)
    ensures Lookup(payload, key) == Some(v) <==> Holds(payload, key, v)
  {
    if payload.Obj? {
      LookupEntryIs(payload.entries, key, v);
    }
  }

  // What is read under a key: nothing usable, or exactly the texts offered.
  lemma TextsAre(payload: Json, key: string)
    ensures TextsAt(payload, key) == None <==> Unusable(payload, key)
    ensures TextsAt(payload, key).Some? ==> forall x :: x in TextsAt(payload, key).value <==> Offers(payload, key, x)
  {
    hide Lookup, Holds;
    forall v ensures Lookup(payload, key) == Some(v) <==> Holds(payload, key, v) {
      LookupIs(payload, key, v);
    }
    if Lookup(payload, key).Some? {
      var v := Lookup(payload, key).value;
      forall w | Holds(payload, key, w) ensures w == v {
      }
      assert Unusable(payload, key) <==> !v.Str? && !v.Obj? && !(v.Arr? && forall i :: 0 <= i < |v.items| ==> v.items[i].Str?);
      forall x ensures Offers(payload, key, x) <==> Yields(v, x) {
      }
    }
  }

  lemma SecondaryIs(payload: Json)
    ensures var v := Lookup(payload, "include_secondary_cnaes"); v.Some? && Truthy(v.value) <==> WantsSecondary(payload)
  {
    hide Lookup, Holds;
    forall v ensures Lookup(payload, "include_secondary_cnaes") == Some(v) <==> Holds(payload, "include_secondary_cnaes", v) {
      LookupIs(payload, "include_secondary_cnaes", v);
    }
  }

  // The five keys a filter reads.
  ghost predicate AllUsable(payload: Json) {
    && !Unusable(payload, "registration_statuses") && !Unusable(payload, "states") && !Unusable(payload, "municipality_codes")
    && !Unusable(payload, "cnae_codes") && !Unusable(payload, "cnae_prefixes")
  }

  // The parts of a filter, as the payload offers them.
  ghost predicate IsFilterOf(f: Filter, payload: Json) {
    && (forall x :: x in f.registrationStatuses <==> Offers(payload, "registration_statuses", x))
    && (forall x :: x in f.municipalityCodes <==> Offers(payload, "municipality_codes", x))
    && (forall x :: x in f.cnaeCodes <==> Offers(payload, "cnae_codes", x))
    && (forall s :: s in f.states <==> exists x :: OffersText(payload, "states", x) && Upper(Strip(x)) == s)
    && (forall p :: p in f.cnaePrefixes <==> exists x :: OffersText(payload, "cnae_prefixes", x) && Strip(x) == p)
    && (f.includeSecondaryCnaes <==> WantsSecondary(payload))
  }

  /**
   A payload gives a filter exactly when its five lists can be read and every prefix has at most seven
   digits; the filter then holds what the payload offers, stripped, with the states in capitals.
   */
  lemma FilterHoldsOffers(payload: Json)
    ensures FilterOf(payload).Some? <==>
      && AllUsable(payload)
      && forall x :: OffersText(payload, "cnae_prefixes", x) ==> |Strip(x)| <= 7 && forall i :: 0 <= i < |Strip(x)| ==> IsDigitLike(Strip(x)[i])
    ensures FilterOf(payload).Some? ==> IsFilterOf(FilterOf(payload).value, payload)
  {
    hide TextsAt, Offers, Unusable, Strip, Upper, Lookup, Truthy, WantsSecondary, IsDigitLike, Stripped, Capitals, OffersText, ValidPrefix;
    TextsAre(payload, "registration_statuses");
    TextsAre(payload, "states");
    TextsAre(payload, "municipality_codes");
    TextsAre(payload, "cnae_codes");
    TextsAre(payload, "cnae_prefixes");
    SecondaryIs(payload);
    if AllUsable(payload) {
      var places, starts := TextsAt(payload, "states").value, TextsAt(payload, "cnae_prefixes").value;
      StrippedAre(payload, "cnae_prefixes", starts);
      CapitalsAre(payload, "states", places);
      PrefixesValid(payload, Stripped(starts));
    }
  }

  lemma StrippedAre(payload: Json, key: string, texts: set<string>)
    requires forall x :: x in texts <==> Offers(payload, key, x)
    ensures forall p :: p in Stripped(texts) <==> exists x :: OffersText(payload, key, x) && Strip(x) == p
  {
    hide Strip, Offers;
    forall p ensures p in Stripped(texts) <==> exists x :: OffersText(payload, key, x) && Strip(x) == p {
      if x :| OffersText(payload, key, x) && Strip(x) == p {
        assert x in texts;
      }
      if p in Stripped(texts) {
        var x :| x in texts && Strip(x) != "" && Strip(x) == p;
        assert OffersText(payload, key, x);
      }
    }
  }

  lemma CapitalsAre(payload: Json, key: string, texts: set<string>)
    requires forall x :: x in texts <==> Offers(payload, key, x)
    ensures forall p :: p in Capitals(texts) <==> exists x :: OffersText(payload, key, x) && Upper(Strip(x)) == p
  {
    hide Strip, Upper, Offers;
    forall p ensures p in Capitals(texts) <==> exists x :: OffersText(payload, key, x) && Upper(Strip(x)) == p {
      if x :| OffersText(payload, key, x) && Upper(Strip(x)) == p {
        assert x in texts;
      }
      if p in Capitals(texts) {
        var x :| x in texts && Strip(x) != "" && Upper(Strip(x)) == p;
        assert OffersText(payload, key, x);
      }
    }
  }

  lemma PrefixesValid(payload: Json, prefixes: set<string>)
    requires forall p :: p in prefixes <==> exists x :: OffersText(payload, "cnae_prefixes", x) && Strip(x) == p
    ensures (forall p :: p in prefixes ==> ValidPrefix(p)) <==>
      forall x :: OffersText(payload, "cnae_prefixes", x) ==> |Strip(x)| <= 7 && forall i :: 0 <= i < |Strip(x)| ==> IsDigitLike(Strip(x)[i])
  {
    hide Strip, OffersText, IsDigitLike;
    if forall p :: p in prefixes ==> ValidPrefix(p) {
      forall x | OffersText(payload, "cnae_prefixes", x)
        ensures |Strip(x)| <= 7 && forall i :: 0 <= i < |Strip(x)| ==> IsDigitLike(Strip(x)[i])
      {
        assert Strip(x) in prefixes;
      }
    }
  }

  lemma MatchesSelected(payload: Json, f: Filter, row: Row)
    requires IsFilterOf(f, payload) && |row| == 30
    ensures f.Matches(ParseRow(row).value) <==> Selected(payload, row)
  {
    hide Strip, Upper, Lower, Codes, Offers, WantsSecondary, HasPiece, StateWanted, ActivityWanted, IsFilterOf;
    var e := ParseRow(row).value;
    StatesWanted(payload, f, e.state);
    PlainListsWanted(payload, f, e.registrationStatus, e.municipalityCode);
    ActivityMatches(payload, f, e, row[12]);
  }

  lemma PlainListsWanted(payload: Json, f: Filter, status: string, town: string)
    requires IsFilterOf(f, payload)
    ensures f.registrationStatuses == {} || status in f.registrationStatuses <==> StatusWanted(payload, status)
    ensures f.municipalityCodes == {} || town in f.municipalityCodes <==> TownWanted(payload, town)
  {
    hide Strip, Upper, Offers, OffersText, WantsSecondary;
  }

  lemma ActivityMatches(payload: Json, f: Filter, e: Establishment, others: string)
    requires IsFilterOf(f, payload) && e.secondaryCnaes == Codes(others)
    ensures ((f.cnaeCodes == {} && f.cnaePrefixes == {}) || f.CnaeMatches(e.primaryCnae)
             || (f.includeSecondaryCnaes && exists i :: 0 <= i < |e.secondaryCnaes| && f.CnaeMatches(e.secondaryCnaes[i])))
       <==> ActivityWanted(payload, e.primaryCnae, others)
  {
    hide Strip, Upper, Codes, Offers, OffersText, WantsSecondary, HasPiece, CodeWanted;
    forall code ensures f.CnaeMatches(code) <==> CodeWanted(payload, code) {
      CodesMatch(payload, f, code);
    }
    forall code ensures code in e.secondaryCnaes <==> HasPiece(others, code) {
      CodesArePieces(others, code);
    }
    NoActivity(payload, f);
    SomeSecondary(payload, f, e.secondaryCnaes, others);
  }

  lemma CodesMatch(payload: Json, f: Filter, code: string)
    requires IsFilterOf(f, payload)
    ensures f.CnaeMatches(code) <==> CodeWanted(payload, code)
  {
    hide Strip, Upper, Offers, WantsSecondary, OffersText;
    if x :| OffersText(payload, "cnae_prefixes", x) && Strip(x) <= code {
      assert Strip(x) in f.cnaePrefixes;
    }
    if p :| p in f.cnaePrefixes && p <= code {
      var x :| OffersText(payload, "cnae_prefixes", x) && Strip(x) == p;
    }
  }

  lemma StatesWanted(payload: Json, f: Filter, state: string)
    requires IsFilterOf(f, payload)
    ensures f.states == {} || state in f.states <==> StateWanted(payload, state)
  {
    hide Strip, Upper, Offers, WantsSecondary;
    if f.states == {} {
      forall x ensures !OffersText(payload, "states", x) {
        assert Upper(Strip(x)) !in f.states;
      }
    } else {
      var s :| s in f.states;
      var x :| OffersText(payload, "states", x) && Upper(Strip(x)) == s;
    }
  }

  lemma NoActivity(payload: Json, f: Filter)
    requires IsFilterOf(f, payload)
    ensures f.cnaeCodes == {} && f.cnaePrefixes == {} <==>
      (forall x :: !Offers(payload, "cnae_codes", x)) && (forall x :: !OffersText(payload, "cnae_prefixes", x))
  {
    hide Strip, Upper, Offers, WantsSecondary;
    if f.cnaePrefixes == {} {
      forall x ensures !OffersText(payload, "cnae_prefixes", x) {
        assert Strip(x) !in f.cnaePrefixes;
      }
    }
  }

  lemma SomeSecondary(payload: Json, f: Filter, codes: seq<string>, others: string)
    requires forall code :: f.CnaeMatches(code) <==> CodeWanted(payload, code)
    requires forall code :: code in codes <==> HasPiece(others, code)
    ensures (exists i :: 0 <= i < |codes| && f.CnaeMatches(codes[i])) <==> exists code :: HasPiece(others, code) && CodeWanted(payload, code)
  {
    hide HasPiece, CodeWanted;
    if code :| HasPiece(others, code) && CodeWanted(payload, code) {
      var i :| 0 <= i < |codes| && codes[i] == code;
      assert f.CnaeMatches(codes[i]);
    }
    if i :| 0 <= i < |codes| && f.CnaeMatches(codes[i]) {
      assert codes[i] in codes;
    }
  }

  /** A row is a match of the filter a payload gives exactly when it has thirty columns that meet the payload's criteria. */
  lemma RowsAreSelected(payload: Json, f: Filter, row: Row)
    requires FilterOf(payload) == Some(f)
    ensures WantRow(row, f).Hit? <==> |row| == 30 && Selected(payload, row)
    ensures WantRow(row, f) == Bad(BadLayout) <==> |row| != 30
  {
    hide FilterOf, IsFilterOf, Selected;
    FilterHoldsOffers(payload);
    if |row| == 30 {
      MatchesSelected(payload, f, row);
    }
  }

  // -------------------------------------------------------------- normalised filters

  // No white space but single blanks between other characters.
  ghost predicate Tidy(s: string) {
    && (forall i :: 0 <= i < |s| && IsSpace(s[i]) ==> s[i] == ' ')
    && (s != "" ==> !IsSpace(s[0]) && !IsSpace(s[|s| - 1]))
    && (forall i :: 0 < i < |s| ==> s[i - 1] != ' ' || s[i] != ' ')
  }

  lemma {:induction false} JoinIsTidy(ws: seq<string>)
    requires AreWords(ws, NotSpace)
    ensures Tidy(Join(ws))
  {
    if |ws| == 1 {
      SolidIsTidy(ws[0]);
    } else if |ws| > 1 {
      SolidIsTidy(ws[0]);
      JoinIsTidy(ws[1..]);
      JoinNotEmpty(ws[1..]);
      TidyAppend(ws[0], Join(ws[1..]));
    }
  }

  lemma JoinNotEmpty(ws: seq<string>)
    requires AreWords(ws, NotSpace) && ws != []
    ensures Join(ws) != ""
  {
    assert ws[0] != "";
  }

  lemma SolidIsTidy(w: string)
    requires w != "" && AllOf(w, NotSpace)
    ensures Tidy(w) && forall i :: 0 <= i < |w| ==> !IsSpace(w[i])
  {
  }

  lemma TidyAppend(a: string, b: string)
    requires a != "" && b != "" && Tidy(a) && Tidy(b) && forall i :: 0 <= i < |a| ==> !IsSpace(a[i])
    ensures Tidy(a + " " + b)
  {
    var t := a + " " + b;
    assert forall i :: 0 <= i < |t| ==> t[i] == if i < |a| then a[i] else if i == |a| then ' ' else b[i - |a| - 1];
  }

  // A tidy text is its first word, or that, a blank, and a tidy rest.
  lemma CleanSplits(s: string, n: nat)
    requires Tidy(s) && s != "" && n == RunLength(s, NotSpace)
    ensures 0 < n <= |s|
    ensures n == |s| ==> Clean(s, NotSpace) == s
    ensures n < |s| ==> s[n] == ' ' && Tidy(s[n + 1..]) && Clean(s, NotSpace) == s[..n] + " " + Clean(s[n + 1..], NotSpace)
  {
    hide Words, Join, RunLength, Tidy, IsSpace, AllOf;
    FirstWord(s, n);
    if n == |s| {
      JoinOne(s);
    } else {
      WordsAreNotEmpty(s[n + 1..]);
      JoinCons(s[..n], Words(s[n + 1..], NotSpace));
    }
  }

  lemma {:induction false} TidyIsClean(s: string)
    requires Tidy(s)
    ensures Clean(s, NotSpace) == s
    decreases |s|
  {
    hide Clean, RunLength, Tidy;
    if s == "" {
      NothingToClean();
    } else {
      var n := RunLength(s, NotSpace);
      CleanSplits(s, n);
      if n < |s| {
        TidyIsClean(s[n + 1..]);
        assert s == s[..n] + [s[n]] + s[n + 1..];
      }
    }
  }

  lemma NothingToClean()
    ensures Clean("", NotSpace) == ""
  {
  }

  lemma FirstWord(s: string, n: nat)
    requires Tidy(s) && s != "" && n == RunLength(s, NotSpace)
    ensures 0 < n <= |s|
    ensures n == |s| ==> Words(s, NotSpace) == [s]
    ensures n < |s| ==> n + 1 < |s| && s[n] == ' ' && Tidy(s[n + 1..]) && Words(s, NotSpace) == [s[..n]] + Words(s[n + 1..], NotSpace)
  {
    hide Words, RunLength, Tidy, IsSpace;
    FirstIsKept(s);
    if n == |s| {
      assert s[..n] == s;
      WordsOfOne(s, NotSpace);
    } else {
      TidyTail(s, n);
      WordsStep(s, NotSpace);
      assert s[n..] == " " + s[n + 1..];
      WordsAfterBlank(s[n + 1..], NotSpace);
    }
  }

  lemma FirstIsKept(s: string)
    requires Tidy(s) && s != ""
    ensures RunLength(s, NotSpace) > 0 && NotSpace(s[0])
  {
  }

  lemma TidyTail(s: string, n: nat)
    requires Tidy(s) && n < |s| && IsSpace(s[n])
    ensures n + 1 < |s| && s[n] == ' ' && Tidy(s[n + 1..])
  {
    var rest := s[n + 1..];
    assert forall i :: 0 <= i < |rest| ==> rest[i] == s[n + 1 + i];
    assert n != |s| - 1;
    assert s[n + 1 - 1] != ' ' || s[n + 1] != ' ';
  }

  lemma WordsAreNotEmpty(s: string)
    requires Tidy(s) && s != ""
    ensures Words(s, NotSpace) != []
  {
  }

  lemma JoinCons(w: string, ws: seq<string>)
    requires ws != []
    ensures Join([w] + ws) == w + " " + Join(ws)
  {
    assert ([w] + ws)[1..] == ws;
  }

  lemma JoinOne(w: string)
    ensures Join([w]) == w
  {
  }

  // How a text under a key is spelled in normal filters.
  ghost predicate SpelledNormally(key: string, s: string) {
    if key in {"cnpj", "cnae", "cnaes", "municipality_code", "municipality_codes"}
    then forall i :: 0 <= i < |s| ==> 'a' <= s[i] <= 'z' || 'A' <= s[i] <= 'Z' || '0' <= s[i] <= '9'
    else Tidy(s) && (key in {"state", "states", "uf", "ufs"} ==> forall i :: 0 <= i < |s| ==> !('a' <= s[i] <= 'z'))
  }

  lemma UpperFixes(s: string)
    ensures Upper(s) == s <==> forall i :: 0 <= i < |s| ==> !('a' <= s[i] <= 'z')
  {
    hide Upper;
    if Upper(s) == s {
      forall i | 0 <= i < |s| ensures !('a' <= s[i] <= 'z') {
        assert Upper(s)[i] == s[i];
      }
    }
  }

  lemma CleanIsTidy(s: string)
    ensures Tidy(Clean(s, NotSpace)) && (Clean(s, NotSpace) == s <==> Tidy(s))
  {
    hide Words, Join, Tidy;
    JoinIsTidy(Words(s, NotSpace));
    if Tidy(s) {
      TidyIsClean(s);
    }
  }

  lemma UpperIsTidy(s: string)
    ensures Tidy(Upper(s)) <==> Tidy(s)
  {
    hide Upper;
    assert forall i :: 0 <= i < |s| ==> (IsSpace(Upper(s)[i]) <==> IsSpace(s[i])) && (Upper(s)[i] == ' ' <==> s[i] == ' ');
  }

  /** A text is left alone exactly when it is spelled normally. */
  lemma TextsFixedExactly(key: string, s: string)
    ensures NormText(key, s) == s <==> SpelledNormally(key, s)
  {
    hide Clean, Tidy, Upper, Only;
    CleanIsTidy(s);
    if key in {"cnpj", "cnae", "cnaes", "municipality_code", "municipality_codes"} {
      OnlyOfClean(s);
      assert AllOf(s, IsAlnum) <==> SpelledNormally(key, s);
    } else if key in {"state", "states", "uf", "ufs"} {
      var clean := Clean(s, NotSpace);
      UpperFixes(s);
      UpperFixes(clean);
      UpperIsTidy(clean);
    }
  }

  /**
   What normalising a text keeps: of a code its letters and digits, in order; of any other text its words,
   with capital letters under a key for states.
   */
  lemma TextsKeepWords(key: string, s: string)
    ensures key in {"cnpj", "cnae", "cnaes", "municipality_code", "municipality_codes"} ==> NormText(key, s) == Only(s, IsAlnum)
    ensures key in {"state", "states", "uf", "ufs"} ==> Words(NormText(key, s), NotSpace) == Words(Upper(s), NotSpace)
    ensures key !in {"cnpj", "cnae", "cnaes", "municipality_code", "municipality_codes", "state", "states", "uf", "ufs"} ==>
      Words(NormText(key, s), NotSpace) == Words(s, NotSpace)
  {
    hide Words, Only, Upper, Join;
    OnlyOfClean(s);
    CleanOfUpper(s);
    WordsOfJoin(Words(s, NotSpace), NotSpace);
    WordsOfJoin(Words(Upper(s), NotSpace), NotSpace);
  }

  lemma OnlyOfClean(s: string)
    ensures Only(Clean(s, NotSpace), IsAlnum) == Only(s, IsAlnum)
  {
    WordsAndBlanks(s);
    OnlyOfJoin(Words(s, NotSpace));
  }

  function Concat(ws: seq<string>): string {
    if ws == [] then "" else ws[0] + Concat(ws[1..])
  }

  lemma {:induction false} OnlyOfJoin(ws: seq<string>)
    ensures Only(Join(ws), IsAlnum) == Only(Concat(ws), IsAlnum)
  {
    if |ws| == 1 {
      assert Concat(ws) == ws[0];
    } else if |ws| > 1 {
      hide Only;
      OnlyOfJoin(ws[1..]);
      OnlyOfPieces(ws[0], " " + Join(ws[1..]), IsAlnum, ' ');
      OnlyOfPieces(" ", Join(ws[1..]), IsAlnum, ' ');
      OnlyOfPieces(ws[0], Concat(ws[1..]), IsAlnum, ' ');
      assert Only(" ", IsAlnum) == "" by { BlankIsDropped(); }
      assert ws[0] + " " + Join(ws[1..]) == ws[0] + (" " + Join(ws[1..]));
    }
  }

  lemma BlankIsDropped()
    ensures Only(" ", IsAlnum) == ""
  {
  }

  lemma {:induction false} WordsAndBlanks(s: string)
    ensures Only(Concat(Words(s, NotSpace)), IsAlnum) == Only(s, IsAlnum)
    decreases |s|
  {
    if s != "" {
      hide Words, Only, RunLength, AllOf;
      var n := Head(s, NotSpace);
      WordsStep(s, NotSpace);
      WordsAndBlanks(s[n..]);
      assert s == s[..n] + s[n..];
      OnlyOfPieces(s[..n], s[n..], IsAlnum, ' ');
      var rest := Words(s[n..], NotSpace);
      if NotSpace(s[0]) {
        assert ([s[..n]] + rest)[1..] == rest;
        OnlyOfPieces(s[..n], Concat(rest), IsAlnum, ' ');
      } else {
        SpaceIsDropped(s[..n]);
        assert [] + rest == rest;
      }
    }
  }

  lemma SpaceIsDropped(s: string)
    requires |s| == 1 && IsSpace(s[0])
    ensures Only(s, IsAlnum) == ""
  {
  }

  /** A list keeps the normal forms of its items, as often as they occur, without the empty ones. */
  lemma ListsKeepItems(key: string, a: seq<Json>, b: seq<Json>, v: Json)
    ensures multiset(Norm(key, Arr(a + b)).items) == multiset(Norm(key, Arr(a)).items) + multiset(Norm(key, Arr(b)).items)
    ensures Norm(key, Arr([v])) ==
      var n := Norm(key, v); Arr(if n == Null || n == Str("") || n == Arr([]) || n == Obj([]) then [] else [n])
  {
    hide Norm, Sort, Tagged, IsEmptyValue;
    NormArr(key, a);
    NormArr(key, b);
    NormArr(key, a + b);
    NormItemsOfPieces(key, a, b);
    ValuesOfPieces(NormItems(key, a), NormItems(key, b));
    NormOfOne(key, v);
  }

  lemma NormOfOne(key: string, v: Json)
    ensures Norm(key, Arr([v])) ==
      var n := Norm(key, v); Arr(if n == Null || n == Str("") || n == Arr([]) || n == Obj([]) then [] else [n])
  {
    var n := Norm(key, v);
    assert [v][1..] == [] && NormItems(key, []) == [];
    assert NormItems(key, [v]) == if IsEmptyValue(n) then [] else [Tagged(n)];
    var t := Tagged(n);
    assert [t][1..] == [] && Sort([t][1..]) == [] && Sort([t]) == [t];
    assert Values([t]) == [n] && Values([]) == [];
  }

  lemma NormArr(key: string, items: seq<Json>)
    ensures Norm(key, Arr(items)).Arr?
    ensures multiset(Norm(key, Arr(items)).items) == multiset(Values(NormItems(key, items)))
  {
    hide Sort, Values;
    SortKeepsValues(NormItems(key, items));
  }

  lemma {:induction false} InsertKeepsValues(x: Keyed<Json>, xs: seq<Keyed<Json>>)
    ensures multiset(Values(Insert(x, xs))) == multiset{x.value} + multiset(Values(xs))
  {
    ValuesOfPieces([x], xs);
    assert Values([x]) == [x.value];
    if xs != [] && !Leq(x.key, xs[0].key) {
      InsertKeepsValues(x, xs[1..]);
      ValuesOfPieces([xs[0]], Insert(x, xs[1..]));
      assert Values([xs[0]]) == [xs[0].value];
      assert Values(xs) == [xs[0].value] + Values(xs[1..]);
    }
  }

  lemma {:induction false} SortKeepsValues(xs: seq<Keyed<Json>>)
    ensures multiset(Values(Sort(xs))) == multiset(Values(xs))
  {
    if xs != [] {
      SortKeepsValues(xs[1..]);
      InsertKeepsValues(xs[0], Sort(xs[1..]));
      assert Values(xs) == [xs[0].value] + Values(xs[1..]);
    }
  }

  lemma ValuesOfPieces(xs: seq<Keyed<Json>>, ys: seq<Keyed<Json>>)
    ensures Values(xs + ys) == Values(xs) + Values(ys)
  {
    hide Values;
  }

  lemma {:induction false} NormItemsOfPieces(key: string, a: seq<Json>, b: seq<Json>)
    ensures NormItems(key, a + b) == NormItems(key, a) + NormItems(key, b)
  {
    if a == [] {
      assert a + b == b;
    } else {
      hide Norm, IsEmptyValue;
      assert (a + b)[1..] == a[1..] + b;
      NormItemsOfPieces(key, a[1..], b);
    }
  }

  /** A mapping keeps the normal forms of its values under their keys, without the empty ones. */
  lemma {:induction false} MappingsKeepEntries(key: string, es: seq<Keyed<Json>>, x: Keyed<Json>)
    ensures x in Norm(key, Obj(es)).entries <==>
      exists i :: 0 <= i < |es| && es[i].key == x.key && Norm(es[i].key, es[i].value) == x.value
        && x.value != Null && x.value != Str("") && x.value != Arr([]) && x.value != Obj([])
  {
    NormObj(key, es, x);
    EntriesKept(es, x);
  }

  lemma NormObj(key: string, es: seq<Keyed<Json>>, x: Keyed<Json>)
    ensures Norm(key, Obj(es)).Obj? && (x in Norm(key, Obj(es)).entries <==> x in NormEntries(es))
  {
    hide Sort;
    SortSorts(NormEntries(es));
    SameMembers(Sort(NormEntries(es)), NormEntries(es));
  }

  lemma {:induction false} EntriesKept(es: seq<Keyed<Json>>, x: Keyed<Json>)
    ensures x in NormEntries(es) <==>
      exists i :: 0 <= i < |es| && es[i].key == x.key && Norm(es[i].key, es[i].value) == x.value
        && x.value != Null && x.value != Str("") && x.value != Arr([]) && x.value != Obj([])
  {
    if es != [] {
      hide Norm, NormEntries;
      NormEntriesStep(es);
      EntriesKept(es[1..], x);
      if i :| 0 <= i < |es| && es[i].key == x.key && Norm(es[i].key, es[i].value) == x.value && !IsEmptyValue(x.value) {
        assert i > 0 ==> es[1..][i - 1] == es[i];
      }
      if i :| 0 <= i < |es[1..]| && es[1..][i].key == x.key && Norm(es[1..][i].key, es[1..][i].value) == x.value && !IsEmptyValue(x.value) {
        assert es[i + 1] == es[1..][i];
      }
    } else {
      NoNormEntries();
    }
  }
}
