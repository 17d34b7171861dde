/** The checks a DISCOVER_CNPJ payload passes before its run starts. */
module Planning {
  import opened Basics
  import opened Text

  type Url = string

  datatype JobPayload = JobPayload(
    datasetReference: string,
    sourcePath: string, sourceUrl: string, sourcePaths: seq<string>, sourceUrls: seq<string>,
    companyPaths: seq<string>, companyUrls: seq<string>,
    simplesPaths: seq<string>, simplesUrls: seq<string>,
    mode: string, maxResults: Option<int>,
    coverageComplete: bool, expectedParts: int)

  datatype Settings = Settings(previewMax: int, fullMax: int, fullEnabled: bool)

  // The files of a ready dataset.
  datatype Manifest = Manifest(establishments: set<Url>, companies: set<Url>, simples: set<Url>)

  datatype Source = Source(value: string, isUrl: bool)

  datatype Plan = Plan(
    dataset: string, full: bool, maxResults: nat, coverageComplete: bool,
    establishments: seq<Source>, companies: seq<Source>, simples: seq<Source>)
  {
    function All(): seq<Source> {
      establishments + companies + simples
    }

    predicate Remote() {
      exists i :: 0 <= i < |All()| && All()[i].isUrl
    }
  }

  datatype Refusal =
    | NoDatasetReference | NotOneCollection | TooManySources | PathsAndUrls
    | UnknownMode | LimitOutOfBounds | PreviewTakesOneSource | PreviewTakesNoComplement
    | KillSwitch | IncompleteParts | NoReadyManifest | UnknownUrl | MixedSources | NotEveryFile | ReferenceRefused

  function Sources(values: seq<string>, isUrl: bool): (r: seq<Source>)
    ensures |r| == |values| && forall i :: 0 <= i < |r| ==> r[i] == Source(values[i], isUrl)
  {
    if values == [] then [] else [Source(values[0], isUrl)] + Sources(values[1..], isUrl)
  }

  function One(value: string): seq<string> {
    if value == "" then [] else [value]
  }

  function Count(values: seq<string>): nat {
    if values == [] then 0 else 1
  }

  // `_establishment_sources`
  function EstablishmentSources(p: JobPayload): Result<seq<Source>, Refusal> {
    var path, url := One(p.sourcePath), One(p.sourceUrl);
    if Count(path) + Count(url) + Count(p.sourcePaths) + Count(p.sourceUrls) != 1 then Err(NotOneCollection)
    else
      var values := path + url + p.sourcePaths + p.sourceUrls;
      if |values| > 10 then Err(TooManySources)
      else Ok(Sources(values, url != [] || p.sourceUrls != []))
  }

  // `_optional_sources`
  function OptionalSources(paths: seq<string>, urls: seq<string>, maximum: nat): Result<seq<Source>, Refusal> {
    if paths != [] && urls != [] then Err(PathsAndUrls)
    else
      var values := if paths != [] then paths else urls;
      if |values| > maximum then Err(TooManySources) else Ok(Sources(values, urls != []))
  }

  function Urls(sources: seq<Source>): (r: seq<Url>)
    ensures forall u :: u in r <==> Source(u, true) in sources
  {
    if sources == [] then [] else (if sources[0].isUrl then [sources[0].value] else []) + Urls(sources[1..])
  }

  function SetOf(urls: seq<Url>): set<Url> {
    set i | 0 <= i < |urls| :: urls[i]
  }

  predicate Distinct(urls: seq<Url>) {
    forall i, j :: 0 <= i < j < |urls| ==> urls[i] != urls[j]
  }

  // `_validate_manifest_urls`
  function ManifestRefusal(plan: Plan, manifests: map<string, Manifest>): Option<Refusal> {
    if !plan.Remote() then None
    else if plan.dataset !in manifests then Some(NoReadyManifest)
    else
      var m := manifests[plan.dataset];
      if SetOf(Urls(plan.establishments)) <= m.establishments && SetOf(Urls(plan.companies)) <= m.companies
         && SetOf(Urls(plan.simples)) <= m.simples
      then None else Some(UnknownUrl)
  }

  // len(requested) != len(set(requested)) or set(requested) != allowed
  predicate EveryFile(sources: seq<Source>, allowed: set<Url>) {
    |Urls(sources)| == |SetOf(Urls(sources))| && SetOf(Urls(sources)) == allowed
  }

  function CompletenessRefusal(plan: Plan, manifests: map<string, Manifest>): Option<Refusal>
    requires plan.Remote() ==> plan.dataset in manifests
  {
    if !plan.coverageComplete || !plan.Remote() then None
    else if exists i :: 0 <= i < |plan.All()| && !plan.All()[i].isUrl then Some(MixedSources)
    else
      var m := manifests[plan.dataset];
      if EveryFile(plan.establishments, m.establishments) && EveryFile(plan.companies, m.companies)
         && EveryFile(plan.simples, m.simples)
      then None else Some(NotEveryFile)
  }

  function ModeRefusal(plan: Plan, settings: Settings, expectedParts: int): Option<Refusal> {
    if !plan.full && |plan.establishments| != 1 then Some(PreviewTakesOneSource)
    else if !plan.full && (plan.companies != [] || plan.simples != []) then Some(PreviewTakesNoComplement)
    else if plan.full && plan.Remote() && !settings.fullEnabled then Some(KillSwitch)
    else if plan.coverageComplete && (!plan.full || expectedParts < 1 || expectedParts > 10 || |plan.establishments| != expectedParts)
    then Some(IncompleteParts)
    else None
  }

  // CharField(max_length=80) of the run, which is saved before anything else is done
  const REFERENCE_WIDTH := 80

  function Checked(plan: Plan, settings: Settings, expectedParts: int, manifests: map<string, Manifest>): Result<Plan, Refusal> {
    match ModeRefusal(plan, settings, expectedParts)
    case Some(e) => Err(e)
    case None =>
      match ManifestRefusal(plan, manifests)
      case Some(e) => Err(e)
      case None =>
        match CompletenessRefusal(plan, manifests)
        case Some(e) => Err(e)
        case None => if |plan.dataset| <= REFERENCE_WIDTH && NoNul(plan.dataset) then Ok(plan) else Err(ReferenceRefused)
  }

  /** Everything `execute_discover_cnpj` checks before it sets the run RUNNING. */
  function PlanOf(p: JobPayload, settings: Settings, manifests: map<string, Manifest>): Result<Plan, Refusal> {
    var reference, mode := Strip(p.datasetReference), Upper(p.mode);
    if reference == "" then Err(NoDatasetReference)
    else
      match EstablishmentSources(p)
      case Err(e) => Err(e)
      case Ok(establishments) =>
        if mode != "PREVIEW" && mode != "FULL" then Err(UnknownMode)
        else
          var limit := if mode == "PREVIEW" then settings.previewMax else settings.fullMax;
          var max := if p.maxResults.Some? then p.maxResults.value else limit;
          if max < 1 || max > limit then Err(LimitOutOfBounds)
          else
            match OptionalSources(p.companyPaths, p.companyUrls, 10)
            case Err(e) => Err(e)
            case Ok(companies) =>
              match OptionalSources(p.simplesPaths, p.simplesUrls, 1)
              case Err(e) => Err(e)
              case Ok(simples) =>
                Checked(Plan(reference, mode == "FULL", max, p.coverageComplete, establishments, companies, simples),
                        settings, p.expectedParts, manifests)
  }

  lemma {:induction false} CardinalityBound(urls: seq<Url>)
    ensures |SetOf(urls)| <= |urls|
    ensures |SetOf(urls)| == |urls| <==> Distinct(urls)
  {
    if urls != [] {
      var init, last := urls[..|urls| - 1], urls[|urls| - 1];
      CardinalityBound(init);
      SetOfNext(init, last);
      assert urls == init + [last];
      if Distinct(urls) {
        assert last !in SetOf(init);
      } else if last in SetOf(init) {
        assert SetOf(init) + {last} == SetOf(init);
      } else {
        assert !Distinct(init) by {
          var i, j :| 0 <= i < j < |urls| && urls[i] == urls[j];
          assert init[i] in SetOf(init);
        }
      }
    }
  }

  lemma SetOfNext(urls: seq<Url>, u: Url)
    ensures SetOf(urls + [u]) == SetOf(urls) + {u}
  {
    var xs := urls + [u];
    forall v ensures v in SetOf(xs) <==> v in SetOf(urls) || v == u {
      if v in SetOf(urls) {
        var i :| 0 <= i < |urls| && urls[i] == v;
        assert xs[i] == v;
      }
      assert xs[|urls|] == u;
    }
  }

  lemma {:induction false} AllUrls(sources: seq<Source>)
    requires forall i :: 0 <= i < |sources| ==> sources[i].isUrl
    ensures |Urls(sources)| == |sources| && forall i :: 0 <= i < |sources| ==> Urls(sources)[i] == sources[i].value
  {
    if sources != [] {
      AllUrls(sources[1..]);
    }
  }

  ghost predicate Names(sources: seq<Source>, files: set<Url>) {
    && (forall i :: 0 <= i < |sources| ==> sources[i].isUrl)
    && (forall i, j :: 0 <= i < j < |sources| ==> sources[i].value != sources[j].value)
    && (forall u :: u in files <==> exists i :: 0 <= i < |sources| && sources[i].value == u)
  }

  lemma EveryFileIsNamed(sources: seq<Source>, files: set<Url>)
    requires EveryFile(sources, files) && forall i :: 0 <= i < |sources| ==> sources[i].isUrl
    ensures Names(sources, files)
  {
    var urls := Urls(sources);
    AllUrls(sources);
    CardinalityBound(urls);
    forall i, j | 0 <= i < j < |sources| ensures sources[i].value != sources[j].value {
      assert urls[i] != urls[j];
    }
    forall u ensures u in files <==> exists i :: 0 <= i < |sources| && sources[i].value == u {
      if exists i :: 0 <= i < |sources| && sources[i].value == u {
        var i :| 0 <= i < |sources| && sources[i].value == u;
        assert urls[i] in SetOf(urls);
      }
      if u in files {
        var i :| 0 <= i < |urls| && urls[i] == u;
        assert sources[i].value == u;
      }
    }
  }

  /**
   An accepted plan for complete remote coverage names every file of the ready manifest of its
   competence, each exactly once and nothing else, for all three kinds, in FULL mode.
   */
  lemma CompletePlanCoversManifest(p: JobPayload, settings: Settings, manifests: map<string, Manifest>)
    requires PlanOf(p, settings, manifests).Ok?
    requires PlanOf(p, settings, manifests).value.coverageComplete && PlanOf(p, settings, manifests).value.Remote()
    ensures var plan := PlanOf(p, settings, manifests).value;
      && plan.full && settings.fullEnabled && 1 <= plan.maxResults <= settings.fullMax
      && plan.dataset in manifests
      && Names(plan.establishments, manifests[plan.dataset].establishments)
      && Names(plan.companies, manifests[plan.dataset].companies)
      && Names(plan.simples, manifests[plan.dataset].simples)
  {
    hide Names, EveryFile, EstablishmentSources, OptionalSources, Strip, Upper;
    var plan := PlanOf(p, settings, manifests).value;
    var m := manifests[plan.dataset];
    var e, c := |plan.establishments|, |plan.companies|;
    forall i | 0 <= i < e ensures plan.establishments[i].isUrl {
      assert plan.All()[i] == plan.establishments[i];
    }
    forall i | 0 <= i < c ensures plan.companies[i].isUrl {
      assert plan.All()[e + i] == plan.companies[i];
    }
    forall i | 0 <= i < |plan.simples| ensures plan.simples[i].isUrl {
      assert plan.All()[e + c + i] == plan.simples[i];
    }
    EveryFileIsNamed(plan.establishments, m.establishments);
    EveryFileIsNamed(plan.companies, m.companies);
    EveryFileIsNamed(plan.simples, m.simples);
  }

  /** An accepted plan whose establishment parts are URLs only names files of the ready manifest. */
  lemma AcceptedUrlsAreManifestFiles(p: JobPayload, settings: Settings, manifests: map<string, Manifest>)
    requires PlanOf(p, settings, manifests).Ok?
    requires var es := PlanOf(p, settings, manifests).value.establishments; forall i :: 0 <= i < |es| ==> es[i].isUrl
    ensures var plan := PlanOf(p, settings, manifests).value;
      && plan.Remote() && plan.dataset in manifests && plan.maxResults >= 1 && plan.establishments != []
      && forall i :: 0 <= i < |plan.establishments| ==> plan.establishments[i].value in manifests[plan.dataset].establishments
  {
    hide EveryFile, OptionalSources, Strip, Upper, Urls, SetOf;
    var plan := PlanOf(p, settings, manifests).value;
    assert plan.establishments != [];
    assert plan.All()[0] == plan.establishments[0];
    AllUrls(plan.establishments);
    forall i | 0 <= i < |plan.establishments| ensures plan.establishments[i].value in SetOf(Urls(plan.establishments)) {
      InSetOf(Urls(plan.establishments), i);
    }
  }

  lemma InSetOf(urls: seq<Url>, i: nat)
    requires i < |urls|
    ensures urls[i] in SetOf(urls)
  {
  }

  /** A preview reads one establishment source, joins nothing and never counts as complete coverage. */
  lemma PreviewIsSmall(p: JobPayload, settings: Settings, manifests: map<string, Manifest>)
    requires PlanOf(p, settings, manifests).Ok? && !PlanOf(p, settings, manifests).value.full
    ensures var plan := PlanOf(p, settings, manifests).value;
      |plan.establishments| == 1 && plan.companies == [] && plan.simples == [] && !plan.coverageComplete
      && 1 <= plan.maxResults <= settings.previewMax
  {
    hide EveryFile, EstablishmentSources, OptionalSources, Strip, Upper;
  }

  // ------------------------------------------------------------------ files named twice

  // resolve is what a path leads to on the disk; a URL is a file of its own.
  function FileOf(s: Source, resolve: string -> string): Source {
    if s.isUrl then s else Source(resolve(s.value), false)
  }

  ghost predicate NamesOnce(sources: seq<Source>, resolve: string -> string) {
    forall i, j :: 0 <= i < j < |sources| ==> FileOf(sources[i], resolve) != FileOf(sources[j], resolve)
  }

  predicate LeadApart(paths: seq<string>, resolve: string -> string) {
    forall i, j :: 0 <= i < j < |paths| ==> resolve(paths[i]) != resolve(paths[j])
  }

  lemma NamedFilesAreDistinct(sources: seq<Source>, files: set<Url>, resolve: string -> string)
    requires Names(sources, files)
    ensures NamesOnce(sources, resolve)
  {
  }

  lemma LocalNamesOnce(sources: seq<Source>, paths: seq<string>, resolve: string -> string)
    requires sources == Sources(paths, false)
    ensures NamesOnce(sources, resolve) <==> LeadApart(paths, resolve)
  {
    forall i, j | 0 <= i < j < |paths|
      ensures FileOf(sources[i], resolve) == FileOf(sources[j], resolve) <==> resolve(paths[i]) == resolve(paths[j])
    {
    }
  }

  // Whether any collection of the payload holds URLs.
  predicate AsksForUrls(p: JobPayload) {
    p.sourceUrl != "" || p.sourceUrls != [] || p.companyUrls != [] || p.simplesUrls != []
  }

  // One collection gives all the sources of a kind.
  lemma OneKind(sources: seq<Source>, values: seq<string>, isUrl: bool)
    requires sources == Sources(values, isUrl)
    ensures (exists i :: 0 <= i < |sources| && sources[i].isUrl) <==> isUrl && values != []
  {
    if isUrl && values != [] {
      assert sources[0].isUrl;
    }
  }

  lemma OptionalKind(paths: seq<string>, urls: seq<string>, maximum: nat)
    requires OptionalSources(paths, urls, maximum).Ok?
    ensures var sources := OptionalSources(paths, urls, maximum).value;
      ((exists i :: 0 <= i < |sources| && sources[i].isUrl) <==> urls != []) && (urls == [] ==> sources == Sources(paths, false))
  {
    hide Sources;
    OneKind(OptionalSources(paths, urls, maximum).value, if paths != [] then paths else urls, urls != []);
  }

  lemma EstablishmentKind(p: JobPayload)
    requires EstablishmentSources(p).Ok?
    ensures var sources := EstablishmentSources(p).value;
      && ((exists i :: 0 <= i < |sources| && sources[i].isUrl) <==> p.sourceUrl != "" || p.sourceUrls != [])
      && (p.sourceUrl == "" && p.sourceUrls == [] ==> sources == Sources(One(p.sourcePath) + p.sourcePaths, false))
  {
    hide Sources;
    var path, url := One(p.sourcePath), One(p.sourceUrl);
    var values := path + url + p.sourcePaths + p.sourceUrls;
    OneKind(EstablishmentSources(p).value, values, url != [] || p.sourceUrls != []);
    if p.sourceUrl == "" && p.sourceUrls == [] {
      assert values == path + p.sourcePaths;
    }
  }

  lemma RemoteIsSomeKind(plan: Plan)
    ensures plan.Remote() <==>
      || (exists i :: 0 <= i < |plan.establishments| && plan.establishments[i].isUrl)
      || (exists i :: 0 <= i < |plan.companies| && plan.companies[i].isUrl)
      || (exists i :: 0 <= i < |plan.simples| && plan.simples[i].isUrl)
  {
    var e, c := |plan.establishments|, |plan.companies|;
    if i :| 0 <= i < |plan.establishments| && plan.establishments[i].isUrl {
      assert plan.All()[i].isUrl;
    }
    if i :| 0 <= i < |plan.companies| && plan.companies[i].isUrl {
      assert plan.All()[e + i].isUrl;
    }
    if i :| 0 <= i < |plan.simples| && plan.simples[i].isUrl {
      assert plan.All()[e + c + i].isUrl;
    }
  }

  lemma AsksForUrlsIsRemote(p: JobPayload, settings: Settings, manifests: map<string, Manifest>)
    requires PlanOf(p, settings, manifests).Ok?
    ensures var plan := PlanOf(p, settings, manifests).value;
      && (AsksForUrls(p) <==> plan.Remote())
      && (!AsksForUrls(p) ==> plan.establishments == Sources(One(p.sourcePath) + p.sourcePaths, false)
                              && plan.companies == Sources(p.companyPaths, false) && plan.simples == Sources(p.simplesPaths, false))
  {
    hide PlanOf, EstablishmentSources, OptionalSources, Sources;
    CheckedIsThePlan(p, settings, manifests);
    RemoteIsSomeKind(PlanOf(p, settings, manifests).value);
    EstablishmentKind(p);
    OptionalKind(p.companyPaths, p.companyUrls, 10);
    OptionalKind(p.simplesPaths, p.simplesUrls, 1);
  }

  // The checks pass the plan on as it was read.
  lemma CheckedIsThePlan(p: JobPayload, settings: Settings, manifests: map<string, Manifest>)
    requires PlanOf(p, settings, manifests).Ok?
    ensures var plan := PlanOf(p, settings, manifests).value;
      && EstablishmentSources(p) == Ok(plan.establishments) && plan.dataset == Strip(p.datasetReference)
      && OptionalSources(p.companyPaths, p.companyUrls, 10) == Ok(plan.companies)
      && OptionalSources(p.simplesPaths, p.simplesUrls, 1) == Ok(plan.simples)
      && plan.coverageComplete == p.coverageComplete
  {
    hide EveryFile, Strip, Upper, EstablishmentSources, OptionalSources, ModeRefusal, ManifestRefusal, CompletenessRefusal;
  }

  /**
   An accepted complete plan names no file twice exactly when it asks for URLs or its local paths lead
   to different files: nothing else holds local paths to more than a part count.
   */
  lemma CompletePlanNamesOnceExactly(p: JobPayload, settings: Settings, manifests: map<string, Manifest>, resolve: string -> string)
    requires PlanOf(p, settings, manifests).Ok? && PlanOf(p, settings, manifests).value.coverageComplete
    ensures var plan := PlanOf(p, settings, manifests).value;
      (NamesOnce(plan.establishments, resolve) && NamesOnce(plan.companies, resolve) && NamesOnce(plan.simples, resolve))
      <==> AsksForUrls(p) || (LeadApart(p.sourcePaths, resolve) && LeadApart(p.companyPaths, resolve))
  {
    hide PlanOf, Names, NamesOnce, LeadApart;
    var plan := PlanOf(p, settings, manifests).value;
    AsksForUrlsIsRemote(p, settings, manifests);
    if AsksForUrls(p) {
      CompletePlanCoversManifest(p, settings, manifests);
      var m := manifests[plan.dataset];
      NamedFilesAreDistinct(plan.establishments, m.establishments, resolve);
      NamedFilesAreDistinct(plan.companies, m.companies, resolve);
      NamedFilesAreDistinct(plan.simples, m.simples, resolve);
    } else {
      CheckedIsThePlan(p, settings, manifests);
      LocalNamesOnce(plan.establishments, One(p.sourcePath) + p.sourcePaths, resolve);
      LocalNamesOnce(plan.companies, p.companyPaths, resolve);
      LocalNamesOnce(plan.simples, p.simplesPaths, resolve);
      FewLeadApart(p, resolve);
    }
  }

  // One path leads to one file.
  lemma FewLeadApart(p: JobPayload, resolve: string -> string)
    requires EstablishmentSources(p).Ok? && OptionalSources(p.simplesPaths, p.simplesUrls, 1).Ok?
    ensures LeadApart(One(p.sourcePath) + p.sourcePaths, resolve) <==> LeadApart(p.sourcePaths, resolve)
    ensures LeadApart(p.simplesPaths, resolve)
  {
    if p.sourcePath == "" {
      assert One(p.sourcePath) + p.sourcePaths == p.sourcePaths;
    } else {
      assert p.sourcePaths == [];
    }
  }

  // Two local sources, the same one twice.
  const TWICE: JobPayload := JobPayload("2026-01", "", "", ["a.zip", "a.zip"], [], [], [], [], [], "FULL", None, true, 2)

  function TwicePlan(settings: Settings): Plan
    requires settings.fullMax >= 1
  {
    Plan("2026-01", true, settings.fullMax, true, Sources(["a.zip", "a.zip"], false), [], [])
  }

  /** Such a plan is accepted: complete coverage over one file named twice, whatever the manifests. */
  lemma LocalCompletenessIsACount(settings: Settings, manifests: map<string, Manifest>, resolve: string -> string)
    requires settings.fullMax >= 1
    ensures PlanOf(TWICE, settings, manifests) == Ok(TwicePlan(settings))
    ensures !NamesOnce(TwicePlan(settings).establishments, resolve)
  {
    var plan := TwicePlan(settings);
    assert EstablishmentSources(TWICE).value == Sources(["a.zip", "a.zip"], false);
    assert plan.All() == Sources(["a.zip", "a.zip"], false);
    ReadsItself();
    assert PlanOf(TWICE, settings, manifests) == Checked(plan, settings, 2, manifests);
    assert FileOf(plan.establishments[0], resolve) == FileOf(plan.establishments[1], resolve);
  }

  lemma ReadsItself()
    ensures Strip("2026-01") == "2026-01" && Upper("FULL") == "FULL"
  {
  }

  // ------------------------------------------------------------- what is accepted, exactly

  // The sources of a kind as the payload lists them.
  ghost predicate AreListed(sources: seq<Source>, values: seq<string>, isUrl: bool) {
    |sources| == |values| && forall i :: 0 <= i < |sources| ==> sources[i] == Source(values[i], isUrl)
  }

  // Of the four ways to name establishment files exactly one is used, for at most ten.
  ghost predicate OneWay(p: JobPayload) {
    var path, url, paths, urls := p.sourcePath != "", p.sourceUrl != "", p.sourcePaths != [], p.sourceUrls != [];
    && (path || url || paths || urls)
    && !(path && url) && !(path && paths) && !(path && urls) && !(url && paths) && !(url && urls) && !(paths && urls)
    && |p.sourcePaths| <= 10 && |p.sourceUrls| <= 10
  }

  // The establishment files named.
  function NamedEstablishments(p: JobPayload): seq<string> {
    if p.sourcePath != "" then [p.sourcePath] else if p.sourceUrl != "" then [p.sourceUrl]
    else if p.sourcePaths != [] then p.sourcePaths else p.sourceUrls
  }

  ghost predicate AreAmong(urls: seq<string>, files: set<Url>) {
    forall u :: u in urls ==> u in files
  }

  // Each once, and all of them.
  ghost predicate AreAll(urls: seq<string>, files: set<Url>) {
    && (forall i, j :: 0 <= i < j < |urls| ==> urls[i] != urls[j])
    && (forall u :: u in urls <==> u in files)
  }

  // Complement files by path or by address, not both.
  ghost predicate ComplementsNamed(p: JobPayload) {
    && (p.companyPaths == [] || p.companyUrls == []) && |p.companyPaths| <= 10 && |p.companyUrls| <= 10
    && (p.simplesPaths == [] || p.simplesUrls == []) && |p.simplesPaths| <= 1 && |p.simplesUrls| <= 1
  }

  ghost predicate NamesEstablishmentUrls(p: JobPayload) {
    p.sourceUrl != "" || p.sourceUrls != []
  }

  // What the mode and the settings allow.
  ghost predicate ModeAllows(p: JobPayload, settings: Settings, mode: string) {
    && (mode == "PREVIEW" || mode == "FULL")
    && (var limit := if mode == "PREVIEW" then settings.previewMax else settings.fullMax;
        1 <= (if p.maxResults.Some? then p.maxResults.value else limit) <= limit)
    && (mode == "PREVIEW" ==> |NamedEstablishments(p)| == 1 && p.companyPaths == [] && p.companyUrls == [] && p.simplesPaths == [] && p.simplesUrls == [])
    && (mode == "FULL" && AsksForUrls(p) ==> settings.fullEnabled)
    && (p.coverageComplete ==> mode == "FULL" && 1 <= p.expectedParts <= 10 && |NamedEstablishments(p)| == p.expectedParts)
  }

  // Addresses belong to the ready manifest; complete coverage by address takes all of it and nothing else.
  ghost predicate ManifestAllows(p: JobPayload, manifests: map<string, Manifest>, reference: string) {
    AsksForUrls(p) ==>
      && reference in manifests
      && (NamesEstablishmentUrls(p) ==> AreAmong(NamedEstablishments(p), manifests[reference].establishments))
      && AreAmong(p.companyUrls, manifests[reference].companies) && AreAmong(p.simplesUrls, manifests[reference].simples)
      && (p.coverageComplete ==>
            && NamesEstablishmentUrls(p) && p.companyPaths == [] && p.simplesPaths == []
            && AreAll(NamedEstablishments(p), manifests[reference].establishments)
            && AreAll(p.companyUrls, manifests[reference].companies) && AreAll(p.simplesUrls, manifests[reference].simples))
  }

  lemma ListedAreSources(values: seq<string>, isUrl: bool, sources: seq<Source>)
    ensures AreListed(sources, values, isUrl) <==> sources == Sources(values, isUrl)
  {
    hide Sources;
  }

  lemma {:induction false} NoUrls(sources: seq<Source>)
    requires forall i :: 0 <= i < |sources| ==> !sources[i].isUrl
    ensures Urls(sources) == []
  {
    if sources != [] {
      NoUrls(sources[1..]);
    }
  }

  lemma UrlsOfListed(values: seq<string>, isUrl: bool)
    ensures SetOf(Urls(Sources(values, isUrl))) == if isUrl then set u | u in values else {}
    ensures isUrl ==> Urls(Sources(values, isUrl)) == values
    ensures !isUrl ==> Urls(Sources(values, isUrl)) == []
  {
    hide Sources, Urls;
    var sources := Sources(values, isUrl);
    if isUrl {
      AllUrls(sources);
      assert Urls(sources) == values;
    } else {
      NoUrls(sources);
    }
  }

  lemma AreAllIsEveryFile(values: seq<string>, files: set<Url>)
    ensures EveryFile(Sources(values, true), files) <==> AreAll(values, files)
    ensures SetOf(Urls(Sources(values, true))) <= files <==> AreAmong(values, files)
  {
    hide Sources, Urls;
    UrlsOfListed(values, true);
    CardinalityBound(values);
    assert forall u :: u in SetOf(values) <==> u in values;
  }

  // One kind of the plan against the manifest.
  lemma NoneOfPaths(values: seq<string>, files: set<Url>)
    ensures SetOf(Urls(Sources(values, false))) <= files
  {
    hide Sources, Urls;
    UrlsOfListed(values, false);
  }

  lemma EstablishmentsAreNamed(p: JobPayload)
    ensures EstablishmentSources(p).Ok? <==> OneWay(p)
    ensures EstablishmentSources(p).Ok? ==> EstablishmentSources(p).value == Sources(NamedEstablishments(p), NamesEstablishmentUrls(p))
  {
    hide Sources;
    var values := One(p.sourcePath) + One(p.sourceUrl) + p.sourcePaths + p.sourceUrls;
    if OneWay(p) {
      assert values == NamedEstablishments(p);
    }
  }

  lemma ComplementsAreNamed(p: JobPayload)
    ensures OptionalSources(p.companyPaths, p.companyUrls, 10).Ok? && OptionalSources(p.simplesPaths, p.simplesUrls, 1).Ok? <==> ComplementsNamed(p)
    ensures OptionalSources(p.companyPaths, p.companyUrls, 10).Ok? ==>
      OptionalSources(p.companyPaths, p.companyUrls, 10).value == if p.companyPaths != [] then Sources(p.companyPaths, false) else Sources(p.companyUrls, true)
    ensures OptionalSources(p.simplesPaths, p.simplesUrls, 1).Ok? ==>
      OptionalSources(p.simplesPaths, p.simplesUrls, 1).value == if p.simplesPaths != [] then Sources(p.simplesPaths, false) else Sources(p.simplesUrls, true)
  {
    assert Sources([], true) == Sources([], false) == [];
  }

  // The plan a payload asks for.
  ghost predicate PlanReads(p: JobPayload, settings: Settings, plan: Plan) {
    && plan.dataset == Strip(p.datasetReference) && (plan.full <==> Upper(p.mode) == "FULL")
    && plan.maxResults == (if p.maxResults.Some? then p.maxResults.value else if plan.full then settings.fullMax else settings.previewMax)
    && plan.coverageComplete == p.coverageComplete
    && AreListed(plan.establishments, NamedEstablishments(p), NamesEstablishmentUrls(p))
    && (if p.companyPaths != [] then AreListed(plan.companies, p.companyPaths, false) else AreListed(plan.companies, p.companyUrls, true))
    && (if p.simplesPaths != [] then AreListed(plan.simples, p.simplesPaths, false) else AreListed(plan.simples, p.simplesUrls, true))
  }

  ghost predicate Acceptable(p: JobPayload, settings: Settings, manifests: map<string, Manifest>) {
    var reference := Strip(p.datasetReference);
    && reference != "" && |reference| <= 80 && NoNul(reference)
    && OneWay(p) && ComplementsNamed(p) && ModeAllows(p, settings, Upper(p.mode)) && ManifestAllows(p, manifests, reference)
  }

  // The payload names a file by its path.
  ghost predicate NamesPaths(p: JobPayload) {
    !NamesEstablishmentUrls(p) || p.companyPaths != [] || p.simplesPaths != []
  }

  lemma RemoteIsAsked(p: JobPayload, settings: Settings, plan: Plan)
    requires PlanReads(p, settings, plan) && OneWay(p) && ComplementsNamed(p)
    ensures plan.Remote() <==> AsksForUrls(p)
  {
    hide Strip, Upper;
    RemoteIsSomeKind(plan);
    if NamesEstablishmentUrls(p) {
      assert plan.establishments[0].isUrl;
    }
    if p.companyUrls != [] {
      assert plan.companies[0].isUrl;
    }
    if p.simplesUrls != [] {
      assert plan.simples[0].isUrl;
    }
  }

  lemma LocalIsSomeKind(plan: Plan)
    ensures (exists i :: 0 <= i < |plan.All()| && !plan.All()[i].isUrl) <==>
      || (exists i :: 0 <= i < |plan.establishments| && !plan.establishments[i].isUrl)
      || (exists i :: 0 <= i < |plan.companies| && !plan.companies[i].isUrl)
      || (exists i :: 0 <= i < |plan.simples| && !plan.simples[i].isUrl)
  {
    var e, c := |plan.establishments|, |plan.companies|;
    if i :| 0 <= i < |plan.establishments| && !plan.establishments[i].isUrl {
      assert !plan.All()[i].isUrl;
    }
    if i :| 0 <= i < |plan.companies| && !plan.companies[i].isUrl {
      assert !plan.All()[e + i].isUrl;
    }
    if i :| 0 <= i < |plan.simples| && !plan.simples[i].isUrl {
      assert !plan.All()[e + c + i].isUrl;
    }
  }

  lemma LocalIsAsked(p: JobPayload, settings: Settings, plan: Plan)
    requires PlanReads(p, settings, plan) && OneWay(p) && ComplementsNamed(p)
    ensures (exists i :: 0 <= i < |plan.All()| && !plan.All()[i].isUrl) <==> NamesPaths(p)
  {
    hide Strip, Upper;
    LocalIsSomeKind(plan);
    if !NamesEstablishmentUrls(p) {
      assert !plan.establishments[0].isUrl;
    }
    if p.companyPaths != [] {
      assert !plan.companies[0].isUrl;
    }
    if p.simplesPaths != [] {
      assert !plan.simples[0].isUrl;
    }
  }

  lemma ManifestAllowsExactly(p: JobPayload, settings: Settings, plan: Plan, manifests: map<string, Manifest>)
    requires PlanReads(p, settings, plan) && OneWay(p) && ComplementsNamed(p)
    ensures ManifestRefusal(plan, manifests) == None && CompletenessRefusal(plan, manifests) == None
       <==> ManifestAllows(p, manifests, plan.dataset)
  {
    hide EveryFile, Urls, SetOf, Strip, Upper, AreAmong, AreAll;
    RemoteIsAsked(p, settings, plan);
    LocalIsAsked(p, settings, plan);
    ListedAreSources(NamedEstablishments(p), NamesEstablishmentUrls(p), plan.establishments);
    ListedAreSources(p.companyPaths, false, plan.companies);
    ListedAreSources(p.companyUrls, true, plan.companies);
    ListedAreSources(p.simplesPaths, false, plan.simples);
    ListedAreSources(p.simplesUrls, true, plan.simples);
    if AsksForUrls(p) && plan.dataset in manifests {
      var m := manifests[plan.dataset];
      AreAllIsEveryFile(NamedEstablishments(p), m.establishments);
      AreAllIsEveryFile(p.companyUrls, m.companies);
      AreAllIsEveryFile(p.simplesUrls, m.simples);
      NoneOfPaths(NamedEstablishments(p), m.establishments);
      NoneOfPaths(p.companyPaths, m.companies);
      NoneOfPaths(p.simplesPaths, m.simples);
      NothingAmong(m.companies);
      NothingAmong(m.simples);
    }
  }

  lemma NothingAmong(files: set<Url>)
    ensures AreAmong([], files)
  {
  }

  lemma ModeAllowsExactly(p: JobPayload, settings: Settings, plan: Plan)
    requires PlanReads(p, settings, plan) && OneWay(p) && ComplementsNamed(p) && Upper(p.mode) in {"PREVIEW", "FULL"}
    requires var limit := if plan.full then settings.fullMax else settings.previewMax; 1 <= plan.maxResults <= limit
    ensures ModeRefusal(plan, settings, p.expectedParts) == None <==> ModeAllows(p, settings, Upper(p.mode))
  {
    hide Strip, Upper;
    RemoteIsAsked(p, settings, plan);
  }

  /** A payload is accepted exactly when it is acceptable, and its plan is what it asks for. */
  lemma AcceptedExactly(p: JobPayload, settings: Settings, manifests: map<string, Manifest>)
    ensures PlanOf(p, settings, manifests).Ok? <==> Acceptable(p, settings, manifests)
    ensures PlanOf(p, settings, manifests).Ok? ==> PlanReads(p, settings, PlanOf(p, settings, manifests).value)
  {
    hide EstablishmentSources, OptionalSources, Strip, Upper, ModeRefusal, ManifestRefusal, CompletenessRefusal, ModeAllows, ManifestAllows,
         OneWay, ComplementsNamed, PlanReads, Sources, NamedEstablishments;
    EstablishmentsAreNamed(p);
    ComplementsAreNamed(p);
    if OneWay(p) && ComplementsNamed(p) && Upper(p.mode) in {"PREVIEW", "FULL"} {
      var mode := Upper(p.mode);
      var limit := if mode == "PREVIEW" then settings.previewMax else settings.fullMax;
      var max := if p.maxResults.Some? then p.maxResults.value else limit;
      if 1 <= max <= limit {
        var plan := Plan(Strip(p.datasetReference), mode == "FULL", max, p.coverageComplete, EstablishmentSources(p).value,
                         OptionalSources(p.companyPaths, p.companyUrls, 10).value, OptionalSources(p.simplesPaths, p.simplesUrls, 1).value);
        BuiltPlanReads(p, settings, plan);
        ModeAllowsExactly(p, settings, plan);
        ManifestAllowsExactly(p, settings, plan, manifests);
      } else {
        LimitMatters(p, settings, mode);
      }
    } else {
      ModeMatters(p, settings);
    }
  }

  lemma BuiltPlanReads(p: JobPayload, settings: Settings, plan: Plan)
    requires OneWay(p) && ComplementsNamed(p)
    requires plan.dataset == Strip(p.datasetReference) && (plan.full <==> Upper(p.mode) == "FULL") && plan.coverageComplete == p.coverageComplete
    requires plan.maxResults == if p.maxResults.Some? then p.maxResults.value else if plan.full then settings.fullMax else settings.previewMax
    requires EstablishmentSources(p) == Ok(plan.establishments)
    requires OptionalSources(p.companyPaths, p.companyUrls, 10) == Ok(plan.companies)
    requires OptionalSources(p.simplesPaths, p.simplesUrls, 1) == Ok(plan.simples)
    ensures PlanReads(p, settings, plan)
  {
    hide Strip, Upper, EstablishmentSources, OptionalSources, OneWay, ComplementsNamed, Sources;
    EstablishmentsAreNamed(p);
    ComplementsAreNamed(p);
    ListedAreSources(NamedEstablishments(p), NamesEstablishmentUrls(p), plan.establishments);
    ListedAreSources(p.companyPaths, false, plan.companies);
    ListedAreSources(p.companyUrls, true, plan.companies);
    ListedAreSources(p.simplesPaths, false, plan.simples);
    ListedAreSources(p.simplesUrls, true, plan.simples);
  }

  lemma LimitMatters(p: JobPayload, settings: Settings, mode: string)
    requires var limit := if mode == "PREVIEW" then settings.previewMax else settings.fullMax;
      !(1 <= (if p.maxResults.Some? then p.maxResults.value else limit) <= limit)
    ensures !ModeAllows(p, settings, mode)
  {
  }

  lemma ModeMatters(p: JobPayload, settings: Settings)
    ensures Upper(p.mode) !in {"PREVIEW", "FULL"} ==> !ModeAllows(p, settings, Upper(p.mode))
  {
    hide Upper;
  }
}
