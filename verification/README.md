# Verified model of the discovery, job, scoring and signal services

This project models the stateful core of a Django application that finds companies in the public CNPJ files of the
Receita Federal, scores them with versioned rule sets, detects commercial signals about them and runs all of that through a
leased job queue. Each module follows one source component and each database transaction is one step over tables held as
maps and sequences. Where the source changes fields step by step the model is a class with methods and loops, proved against
a function on values; the lemmas are about that function.

| Area | Modules |
| --- | --- |
| Leased job queue, any number of workers | `JobServices`, `WorkerProtocol`, `JobTiming` |
| Canonical query filters and coverage scopes | `JsonText`, `Filters`, `FilterMeaning` |
| CNPJ discovery run | `LimitedScan`, `Establishments`, `EstablishmentScan`, `Complements`, `ComplementJoin`, `JoinOutcomes`, `Ingestion`, `Planning`, `RunStores`, `RunCounts`, `Discovery`, `RefusedRows`, `OverlappingRuns` |
| Coverage cache | `Coverage`, `CoverageHits` |
| Dataset manifest | `Manifest` |
| Scoring engine | `Numbers`, `Conditions`, `ConditionMeaning`, `Rounding`, `ScoringEngine`, `ScoreMeaning`, `ScoreCalculation`, `GroupCaps`, `ScoreOrder`, `ScoreBounds`, `ScoreAgeing` |
| Rule set validation and lifecycle | `RuleSetValidation`, `ScoreGuarantees`, `RuleSetLifecycle` |
| Signal detection | `TermSearch`, `Detector`, `Detection`, `GroundedSignals`, `CompanyDetection` |
| Shared | `Basics`, `Text`, `Ordering` |

`dafny verify dfyconfig.toml` checks everything.

What an operation computes is stated twice. A method is proved against the function that specifies it, and, apart from that
function, against the rows, columns and files themselves: `JobTiming` over runs of the queue, `FilterMeaning` for filters and
the rows they select, `RunStores` and `RunCounts` for what a discovery run leaves and reports, `CoverageHits` for the cache,
`ConditionMeaning` and `ScoreMeaning` for scores, `CompanyDetection` for signals.

## How things are represented

- SHA-256 is taken to be injective, so a hash is modelled by what it digests: the canonical text of filters and scopes, the
  payload of a source record, the tuple behind an evidence hash. That the text decides the value is proved
  (`JsonText.DumpsDecides`).
- CSV and ZIP files are sequences of rows, WebDAV listings are sequences of entries, regular expressions are given as two
  functions (which patterns compile, where they are found), the clock is a parameter.
- Case folding and accent stripping are plain ASCII case mapping. A JSON number is kept as its token, a decimal column as its
  text.
- Points and dimensions are integers in thousandths. A configured number is what `Decimal` makes of its text: finite,
  infinite, NaN or malformed. A product of more than 28 digits in thousandths makes `quantize` raise, as the default decimal
  context does.
- The text `str` gives for the set of signal types is a function of the sequence of types in row order, because it depends on
  the order the elements were added in.
- What a discovery run writes is refused, and its transaction rolled back, when a text is wider than its column or holds a
  NUL character or a share capital does not fit numeric(18,2), as PostgreSQL does (`Establishments.Fits`,
  `Ingestion.CompanyRecordFits`); so is a classification wider than its column. Other tables are taken to hold what is
  written to them.
- A share capital is kept as the text that was parsed; the column holds it rounded to two decimals ("1,239" as 1.24).
- A company is identified by its CNPJ; its columns are split by who writes them (establishment columns and complement
  columns). Timestamps of rows are left out unless a property needs them.
- Worker ids are distinct and a worker has one job at a time. A heartbeat thread that outlives its `join` is the extra event
  `StrayHeartbeat`. `SKIP LOCKED` is the atomicity of a claim.
- The files behind URLs and local paths do not change, and ready manifests stay as they are.
- A candidate's company link is its own company: rows are staged and linked in one transaction and linked companies are
  protected from deletion, so `Discovery.Linked` holds of every reachable store.

## What the proofs show about the code

- Lease recovery does not look at `max_attempts`: `WorkerProtocol.RecoveryIgnoresMaxAttempts` reaches any number of attempts
  with `max_attempts = 1`; the exact bound adds one claim per recovered lease.
- Rows that the readers accept can be refused by the database: a CNAE prefix finds codes longer than their column, and a
  share capital of 17 digits is parsed and overflows. The run is FAILED, the refused match is counted as matched and not as
  invalid (`RefusedRows.OneMatch`, `RefusedRows.WideCodeFails`, `RefusedRows.LongCapitalOverflows`,
  `RefusedRows.UnfitRecordFails`); `Discovery.SucceededExactly` and `Discovery.FailedExactly` say exactly when.
- A run whose matches reach the limit on the very last row is exhaustive and still PARTIAL
  (`Discovery.SucceededExactly` asks for fewer matches than the limit).
- Complete coverage over local paths is only a part count: a plan accepted as complete names no file twice exactly when it
  asks for URLs or its local paths lead to different files (`Planning.CompletePlanNamesOnceExactly`). A cache hit therefore
  holds what the parts behind its entry select; only parts given as URLs make that what the dataset selects
  (`Coverage.CacheHitAgainstDataset`); `Coverage.LocalHitMisses` reaches a hit over local paths that misses a company.
- The rule sets validation accepts can raise: `HAS_SIGNAL` over a list among its items raises once an earlier item has made
  it true (`ScoreGuarantees.UnhashableItemRaises`), a coefficient of -Infinity always raises
  (`ScoreGuarantees.InfiniteCoefficientNeverScores`), and one of -1e30 raises as soon as its dimension has points
  (`ScoreGuarantees.HugeCoefficientRaises`). `ScoreGuarantees.ValidSetsScore` and `ScoreGuarantees.FormulaFitsExactly` say
  exactly when a validated set scores.
- CONTAINS and REGEX on `signal_types` read the text of a set, so ties on `observed_at` can change a score
  (`ScoreGuarantees.TiesDecide`); order independence and ageing are stated for sets without such leaves, or for equal texts.
- Validation accepts decay curves that rise; `ScoreGuarantees.CurveFallsExactly` and `ScoreGuarantees.ScoresAgeExactly` say
  exactly which curves never give older evidence more.
- Comparing with a NaN raises `InvalidOperation`, which is no configuration error (`Conditions.NaNRaises`).
- EXISTS on `signal_types` holds without any signal, because an empty set is none of the empty values it is compared with;
  it is the only field where EXISTS and the facts disagree (`Conditions.ExistsAgreesExactly`).
- A worker that lost its lease can go on committing next to the retry of its run. The tables still converge exactly when no
  two different matched rows share a CNPJ (`OverlappingRuns.OverlapsConvergeExactly`).
- The documentation speaks of half-up rounding to an integer for classification; the code rounds half-even to three decimals
  and classifies the decimal value, and the model follows the code. The documentation also foresees alphanumeric CNPJ
  numbers; the complement reader accepts digits only. `max_occurrences` is stored and never read by the engine.

## Model

| member | source | states |
|---|---|---|
| JobServices.JobTable.ClaimNextJob | apps/jobs/services.py:26-74 | every lease past its end goes back to RETRY_SCHEDULED, then the waiting job that is due and comes first by priority (highest), run_after and created_at is claimed: column by column its new lease and its new numbered attempt, or no job is due; the row invariant is kept |
| JobServices.JobTable.RenewJobLease | apps/jobs/services.py:77-92 | renews exactly when the caller owns the running job, refuses lock times below one second, and otherwise changes nothing |
| JobServices.JobTable.MarkSucceeded | apps/jobs/services.py:131-151 | succeeds exactly for the owner of the running job, closes its current attempt and releases the lock; a stale caller changes nothing |
| JobServices.JobTable.MarkFailed | apps/jobs/services.py:154-170 | succeeds exactly for the owner; column by column RETRY_SCHEDULED below max_attempts and FAILED at it, run_after 1, 2, 4 ... 256 and then 300 seconds ahead, the message cut at 2000 and 10000 characters, only the current attempt closed; a stale caller changes nothing |
| JobServices.MarksKeepConsistent | apps/jobs/services.py:138-170 | both marks keep attempts numbered 1..attempt_count, at most one success, and every failure but a final one below max_attempts |
| JobServices.BackoffGrows | apps/jobs/services.py:154-170 | backoff never shrinks as attempts grow and stays between 1 and 300 seconds |
| JobServices.BackoffIsDelay | apps/jobs/services.py:160 | the power capped at 300 is the listed delay of every attempt number |
| JobTiming.RetryWaitsItsDelay | apps/jobs/services.py:154-170 | in any run, from a failing mark of attempt k that leaves a retry until some claim gets the job: its row is due min(300, 2^k) seconds later, no claim gets it before, and every claim from then on gets it or a job that goes before it |
| JobTiming.LeaseHoldsUntilItExpires | apps/jobs/services.py:26-92 | in any run a lease given or renewed for s seconds is touched by no claim through its last second, and the first claim after it takes the job from its worker, until that worker marks or renews |
| JobTiming.ClaimTakesTheFirst | apps/jobs/services.py:39-47 | a claim never gets a job that is not due, and with a due one waiting it gets that or one before it by priority, run_after, created_at |
| WorkerProtocol.RunKeepsInv | apps/jobs/services.py:26-170 | in every state of every interleaving the ledger is consistent and a worker that owns its job holds its newest attempt, unmarked and not lost |
| WorkerProtocol.MarkLandsOnOwnAttempt | apps/jobs/services.py:131-170 | a mark changes rows exactly when its worker still owns the job, and then it closes the very attempt that worker opened and nothing else |
| WorkerProtocol.OneCommitter | apps/jobs/services.py:131-135 | two workers busy with one job hold different attempts, and only the newest can commit |
| WorkerProtocol.RecoveredWorkerChangesNothing | apps/jobs/services.py:26-170 | from the recovery of its lease until it drops the job a worker owns it at no point of the run and none of its marks and heartbeats changes a row, whoever claims the job meanwhile |
| WorkerProtocol.LostMeansFenced | apps/jobs/management/commands/run_worker.py:28-62 | a worker whose lease is flagged lost no longer owns its job |
| WorkerProtocol.StaleWorkerChangesNothing | apps/jobs/services.py:77-170 | once fenced a worker stays fenced until it drops the job, and none of its marks or heartbeats changes a job or attempt row |
| WorkerProtocol.LedgerOnlyGrows | apps/jobs/services.py:26-170 | over any stretch of a run attempts keep number, worker and outcome, and SUCCEEDED and FAILED are never left |
| WorkerProtocol.FailuresAreBounded | apps/jobs/services.py:154-170 | at most one attempt succeeded and at most max_attempts failed |
| WorkerProtocol.OpenAttemptsAreRecoveries | apps/jobs/services.py:29-74 | the attempts left open are exactly the recovered leases plus the one running, and attempt_count counts the claims |
| WorkerProtocol.ClaimsAreBounded | apps/jobs/services.py:26-74 | a job is claimed at most max_attempts times plus once per recovered lease |
| WorkerProtocol.WithoutRecoveriesMaxAttemptsHolds | apps/jobs/services.py:154-170 | without recoveries attempt_count never exceeds max_attempts |
| WorkerProtocol.RecoveryIgnoresMaxAttempts | apps/jobs/services.py:29-37 | for any n there is a run with max_attempts 1 and n attempts |
| WorkerProtocol.MarkOutcome | apps/jobs/management/commands/run_worker.py:38-62 | after the work, whatever the table has become meanwhile, the outcome is marked as the protocol's Mark step does: a lost lease or an error fails the attempt the worker opened, and a lease that is gone discards the result |
| WorkerProtocol.RunOnce | apps/jobs/management/commands/run_worker.py:28-62 | with nobody else at work one turn of the loop claims the next job, executes it and marks it with the outcome, on the attempt it opened |
| JsonText.DumpsDecides | apps/discovery/models.py:38-45 | two values have the same sorted dump exactly when they are the same value up to the order of keys at every depth |
| Filters.NormFixesExactlyNormal | apps/discovery/models.py:13-31 | normalisation changes exactly the values that are not in normal form |
| Filters.NormIdempotent | apps/discovery/models.py:13-35 | normalising twice is normalising once, for any nested JSON |
| Filters.NormForgetsOrder | apps/discovery/models.py:13-35 | rearranging keys and list items at any depth does not change the normal form |
| Filters.NormalShape | apps/discovery/models.py:13-31 | a normal value has sorted keys and no empty value inside a mapping or list |
| Filters.FingerprintIff | apps/discovery/models.py:38-45 | fingerprints agree exactly when normal filters and schema versions do |
| Filters.ScopeHashIff | apps/discovery/coverage.py:10-19 | scope hashes agree exactly when target, normal filters and schema version do, although the scope is normalised again |
| Filters.EquivalentQueriesShare | apps/discovery/coverage.py:10-19 | queries that differ only in the order of their filters share fingerprint and scope hash |
| FilterMeaning.TextsFixedExactly | apps/discovery/models.py:24-30 | normalisation leaves a text alone exactly when it is tidy (single blanks inside), in capitals under a key for states, and all letters and digits under a key for codes |
| FilterMeaning.TextsKeepWords | apps/discovery/models.py:24-30 | a normalised text has the same words, in capitals for states; a normalised code has the same letters and digits in order |
| FilterMeaning.ListsKeepItems | apps/discovery/models.py:20-23 | a normalised list holds the normal forms of its items, as often as they occur, without None, empty texts, lists and mappings |
| FilterMeaning.MappingsKeepEntries | apps/discovery/models.py:14-19 | a normalised mapping holds exactly the non-empty normal forms of its values, under their keys |
| FilterMeaning.FilterHoldsOffers | apps/sources/cnpj/establishments.py:46-67 | a payload gives a filter exactly when its five lists can be read and every prefix has at most seven digits; the filter then holds what the payload offers, stripped, states in capitals |
| FilterMeaning.RowsAreSelected | apps/sources/cnpj/establishments.py:78-101 | a row is a match exactly when it has thirty columns and its status, state, municipality and codes meet what the payload offers; it is refused as a bad layout exactly when it has another number |
| LimitedScan.ScanIsFirstHits | apps/sources/cnpj/jobs.py:204-242 | the limited scan keeps the first max_results matches of the readable prefix and fails exactly when a bad row comes before enough matches |
| LimitedScan.ShortOfLimitIsExhaustive | apps/sources/cnpj/establishments.py:126-145 | short of the limit every row was read and every match kept |
| LimitedScan.ScanAppend | apps/sources/cnpj/jobs.py:204-242 | scanning part after part with what is left of the limit is scanning the concatenation |
| LimitedScan.RowIsReadExactly | apps/sources/cnpj/establishments.py:126-145 | a scan that does not fail reads a row exactly when the rows before it hold fewer matches than the limit |
| EstablishmentScan.ScanPart | apps/sources/cnpj/establishments.py:126-145 | one reader with its loop skips blank rows, stops at a bad layout, at a match its columns cannot hold or at the global limit, commits exactly the matches before that, and counts rows, matches and invalid rows as the reader does |
| EstablishmentScan.ScanEstablishments | apps/sources/cnpj/jobs.py:198-242 | the loop over the parts commits the first matches, reports the parts opened, the rows read, a refused match as matched and a row of another layout as invalid, and reaches the limit exactly when it kept that many |
| EstablishmentScan.PartIsOpenedExactly | apps/sources/cnpj/jobs.py:211-221 | a part is opened, and counted as processed, exactly when the parts before it hold fewer matches than the limit |
| Complements.ScanShape | apps/sources/cnpj/complements.py:54-80 | found and missing targets partition the requested ones, each found once; a failure points at a bad row |
| Complements.ScanFindsFirst | apps/sources/cnpj/complements.py:54-80 | with early exit every target still gets the first record with its key and is missing exactly when there is none |
| Complements.ScanConcat | apps/sources/cnpj/jobs.py:252-277 | scanning the files with a shrinking target set is scanning their concatenation |
| Complements.FirstRecordIs | apps/sources/cnpj/complements.py:62-80 | the record of a root holds the stripped columns of the first row of seven columns that carries it, and is missing exactly when no such row does |
| Complements.RowIsReadExactly | apps/sources/cnpj/complements.py:62-80 | a join that does not fail reads a row exactly when the rows before it leave some root without a record |
| ComplementJoin.GroupByRoot | apps/sources/cnpj/jobs.py:245-250 | candidates_by_basic maps each staged root to its candidates, in order, and nothing else |
| ComplementJoin.AttachRecord | apps/sources/cnpj/jobs.py:262-270 | a record is ingested for every candidate of its root, or up to the first one that fails |
| ComplementJoin.JoinFile | apps/sources/cnpj/complements.py:54-80 | one complement reader with its loop commits the records of its scan and reports rows, matches and what remains |
| ComplementJoin.JoinFiles | apps/sources/cnpj/jobs.py:252-298 | the loop over the files of one kind commits what one scan of their concatenation commits, and reports the files opened, the rows read and what remains |
| ComplementJoin.FileIsOpenedExactly | apps/sources/cnpj/jobs.py:256-260 | a complement file is opened exactly when the files before it leave some root without a record |
| ComplementJoin.JoinGivesFirstRecord | apps/sources/cnpj/jobs.py:252-298 | in a join that does not fail each candidate ends up with the first record of its root in file order, and its root is missing exactly when there is none |
| JoinOutcomes.JoinOutcomeExactly | apps/sources/cnpj/jobs.py:252-298 | a join fails exactly when a root is no target, a first record does not fit its columns, or a row of another layout comes before some root's record; it is complete exactly when every root has a first record before such a row and it fits |
| ComplementJoin.ListingIsTheRun | apps/sources/models.py:185-192 | the listing used by the joins names every candidate of the run once, with its root |
| Ingestion.LaterAbsorbsEarlier | apps/sources/cnpj/ingestion.py:109-289 | repeating a transaction after another one makes its first occurrence irrelevant, for all tables |
| Ingestion.RerunConverges | apps/sources/cnpj/ingestion.py:40-289 | committing any prefix and then everything again gives the same tables as committing everything once |
| Ingestion.FieldIsLastValue | apps/sources/cnpj/ingestion.py:212-224 | after a run each establishment column holds the last non-empty value its rows gave it |
| Ingestion.OnePrimaryCnae | apps/sources/cnpj/ingestion.py:254-279 | every ingested company has exactly one primary CNAE, that of its last row |
| Ingestion.RowReachesCompany | apps/sources/cnpj/establishments.py:166-196 | the non-empty columns of an ingested CSV row reach the right company columns; of its CNAEs only the primary one is flagged, the mentioned ones point to this row's source record and the others keep theirs; the run has the company as a result |
| Ingestion.RecordReachesCompany | apps/sources/cnpj/ingestion.py:108-155 | an ingested company record fills legal name, nature, size and the parsed text of the capital of its own company and its candidate's payload, and changes nothing else but the source records |
| Ingestion.CapitalReads | apps/sources/cnpj/ingestion.py:56-63 | a capital written with a thousands point and a decimal comma is stored as the decimal it stands for |
| Ingestion.ObservationsAreKept | apps/sources/cnpj/ingestion.py:66-105 | a new source record keeps the non-empty texts of its payload under the right names, for rows, company and Simples records; one that exists stays as it is |
| Establishments.CodesArePieces | apps/sources/cnpj/establishments.py:166-196 | the secondary codes of a row are the stripped, non-empty pieces between commas |
| Ingestion.CnpjStore.MergeFields | apps/sources/cnpj/ingestion.py:216-224 | the setattr loop yields the last-non-empty-wins merge and saves nothing when nothing changed |
| Ingestion.CnpjStore.UpsertCnaes | apps/sources/cnpj/ingestion.py:254-279 | demoting, promoting and the loop over secondary codes leave exactly the mentioned codes updated and one primary |
| Ingestion.CnpjStore.IngestRow | apps/sources/cnpj/jobs.py:216-232 | staging, ingesting and linking a match in one transaction is one step of the ingestion function on all tables, or is rolled back exactly when a column cannot hold its value |
| Ingestion.CnpjStore.IngestCompany | apps/sources/cnpj/ingestion.py:108-155 | succeeds exactly for a linked candidate of the record's root with a readable capital and values that fit their columns; otherwise the tables are unchanged |
| Ingestion.CnpjStore.IngestSimples | apps/sources/cnpj/ingestion.py:158-184 | succeeds exactly for a linked candidate of the record's root with texts that can be stored; otherwise the tables are unchanged |
| Planning.CompletePlanCoversManifest | apps/sources/cnpj/jobs.py:164-195 | an accepted plan for complete remote coverage names every file of the ready manifest exactly once, for all three kinds |
| Planning.AcceptedUrlsAreManifestFiles | apps/sources/cnpj/jobs.py:81-111 | accepted establishment URLs belong to the ready manifest of the competence |
| Coverage.PreviewsCacheNothing | apps/sources/cnpj/jobs.py:118-316 | a preview ends PARTIAL or FAILED and leaves every coverage entry as it is |
| Planning.CompletePlanNamesOnceExactly | apps/sources/cnpj/jobs.py:164-195 | an accepted complete plan names no file twice exactly when it asks for URLs or its local establishment and company paths lead to different files |
| Planning.LocalCompletenessIsACount | apps/sources/cnpj/jobs.py:164-173 | a plan naming one local file twice is accepted as complete, whatever the manifests |
| Planning.AcceptedExactly | apps/sources/cnpj/jobs.py:114-195 | a payload is accepted exactly when one way of naming establishment files is used, for at most ten, its complements are named one way, and mode, limit, kill switch, part count and manifest allow it; the plan is then what it asks for |
| Discovery.ExecuteDiscover | apps/sources/cnpj/jobs.py:187-355 | the run commits exactly the transactions of the scan and the joins, up to a bad row or a refused one, and writes the verdict and counters of the specification; when nothing was raised the tables are those its files determine (first matches as results and linked candidates, the first company and Simples record of every root as payloads, registry columns filled) and every number of its report counts what its name says |
| Discovery.RunFillsTables | apps/sources/cnpj/jobs.py:204-298 | after a run that did not fail the first matches of all rows are results and linked candidates, every candidate's payloads are the first company and Simples records of its root or what they were, and the registry holds the former's columns |
| Discovery.ReportCounts | apps/sources/cnpj/jobs.py:312-350 | rows and files are counted exactly while matches or records are still wanted, basics matched and missing are the staged roots with and without a record, and the run is complete exactly when FULL, short of the limit and nothing asked for is missing |
| Discovery.SucceededExactly | apps/sources/cnpj/jobs.py:312-316 | SUCCEEDED exactly when FULL, selective, all rows have the layout, all matches fit their columns and are fewer than the limit, and every requested join finds a record that fits for every root |
| Discovery.FailedExactly | apps/sources/cnpj/jobs.py:299-309 | FAILED exactly when the filter is not selective, a row of another layout or a match that does not fit comes before enough matches, or a join fails |
| RefusedRows.OneMatch | apps/sources/cnpj/jobs.py:211-309 | a part of one matching row succeeds when the row fits and otherwise fails with one match counted and nothing committed |
| RefusedRows.FitsExactly | apps/sources/cnpj/jobs.py:221-232 | a match is refused exactly when one of its texts is wider than its column or holds a NUL |
| RefusedRows.WideCodeFails | apps/sources/cnpj/establishments.py:102-109 | a prefix finds a CNAE code of eight characters and the run fails on it |
| RefusedRows.LongCapitalOverflows | apps/sources/cnpj/ingestion.py:55-62 | any capital of 17 digits or more is parsed and does not fit its column |
| RefusedRows.UnfitRecordFails | apps/sources/cnpj/jobs.py:252-309 | a run fails when the first company record of a staged root does not fit |
| Discovery.MatchesAreTheFirst | apps/sources/cnpj/jobs.py:204-242 | the matches kept never exceed the limit and are the first ones, in file order, before the first row of another layout or match that does not fit; a refused match is counted once, and limit_reached holds exactly at the limit |
| Discovery.BasicsAddUp | apps/sources/cnpj/jobs.py:322-347 | basics matched plus basics missing are the distinct roots staged, for both joins |
| Discovery.RerunDiscoversTheSame | apps/sources/cnpj/jobs.py:211-298 | after a crash at any committed transaction a rerun commits the same transactions and reaches the same tables |
| Discovery.RetriesConverge | apps/sources/cnpj/jobs.py:187-355 | any number of crashes anywhere, followed by a full run, gives the tables, verdict and counters of one uninterrupted run |
| OverlappingRuns.CompleteOverlapsConverge | apps/sources/cnpj/jobs.py:211-298 | two workers that both commit every transaction of a run leave the tables of one, however their transactions interleave |
| OverlappingRuns.OverlapsConvergeExactly | apps/sources/cnpj/jobs.py:211-298 | any part of a run that a stale worker commits in between the transactions of the retry leaves the tables of one run, for every interleaving, exactly when no two different matched rows share a CNPJ |
| OverlappingRuns.OverlapListsTheSame | apps/sources/cnpj/jobs.py:244-250 | without such rows both workers list the same candidates for their joins, whatever the other has staged |
| Coverage.CoverageStore.FindValidCoverage | apps/discovery/coverage.py:22-40 | the answer is the entry of the dataset and the query's scope, exactly when there is one, its run succeeded, and it never expires or expires later |
| Coverage.CoverageStore.RecordSourceCoverage | apps/discovery/coverage.py:43-65 | records exactly succeeded runs with a dataset, replacing the entry of the same dataset and scope |
| Coverage.CoverageStore.MaterializeCachedRun | apps/discovery/coverage.py:68-117 | copies at most max_results results in order, and is PARTIAL exactly when there are more |
| Coverage.HitsOfParts | apps/sources/cnpj/jobs.py:204-242 | what a scan of the parts selects is what some part selects, whatever the order of the parts |
| Coverage.RunResultsFollowTheStore | apps/sources/cnpj/ingestion.py:276-284 | the results table after all the transactions of a run holds the companies its ordered results hold; the joins add none |
| Coverage.SucceededFindsEverything | apps/sources/cnpj/jobs.py:312-350 | a succeeded run finds every company its query selects from the parts its payload names, URLs or local paths |
| Coverage.EqualScopesSelectAlike | apps/discovery/coverage.py:18-19 | queries with equal scope hashes select the same companies from any parts and from any dataset |
| Coverage.RunKeepsInv | apps/discovery/coverage.py:43-117 | in every reachable state results are companies selected from the parts of their run, without repeats, and every entry holds all of them, reruns, crashes and local paths included |
| Coverage.CacheHitIsRecomputation | apps/discovery/coverage.py:22-117 | an untruncated cache hit is exactly what a full scan of the parts behind its entry selects; a truncated one is PARTIAL with exactly max_results of it |
| Coverage.CacheHitAgainstDataset | apps/discovery/coverage.py:22-117 | an untruncated hit holds exactly what the manifest's files select when the parts behind its entry are URLs, and on any company it agrees with them as those parts do |
| Coverage.LocalHitMisses | apps/sources/cnpj/jobs.py:164-173 | a reachable run over a local path named twice whose cache hit misses a company of the dataset |
| CoverageHits.CompleteRunsAnswer | apps/discovery/coverage.py:22-117 | in any run, from the success of a run under a complete plan on, every query with its scope on its dataset is answered with it at every instant and a hit copies its first results, until a step works on that run again or records another of the same scope |
| Manifest.ManifestStore.SyncLatest | apps/sources/cnpj/manifest.py:124-179 | succeeds exactly for the latest listed month whose listing names all twenty-one parts, no others and no negative size, makes it the one current dataset, and stores for each part address, size and tag of the last entry named after it; otherwise it reports why not and changes nothing |
| Manifest.CompleteMeansWhole | apps/sources/cnpj/manifest.py:114-149 | an accepted listing gives exactly 21 files with positive sizes, repeats or not |
| Manifest.LastEntryWins | apps/sources/cnpj/manifest.py:164-178 | of a part listed more than once the last entry is stored |
| Manifest.ClassifiesByName | apps/sources/cnpj/manifest.py:114-121 | an entry gets a part exactly when it is a non-empty file named Estabelecimentos or Empresas with that part's decimal digits, or Simples, and .zip, in any case of letters |
| Manifest.SyncsExactly | apps/sources/cnpj/manifest.py:124-149 | each refusal is given exactly when what it says is missing, and success exactly when nothing is |
| Manifest.LaterName | apps/sources/cnpj/manifest.py:127-134 | the order of the names of competences is the order of their months |
| Manifest.SyncsKeepInv | apps/sources/cnpj/manifest.py:124-179 | over any run of syncs at most one dataset is current and every dataset is whole |
| Manifest.CompleteOrUnchanged | apps/sources/cnpj/manifest.py:124-179 | a failing sync changes nothing; a succeeding one makes the greatest listed competence the only current one |
| Conditions.CheckedEvaluates | apps/scoring/engine.py:47-97 | any validated tree evaluates exactly when its numeric and REGEX leaves find usable facts and its HAS_SIGNAL leaves meet a signal before a list or mapping, and unless it compares a NaN or hashes such an item raises nothing but configuration errors |
| Conditions.NaNRaises | apps/scoring/engine.py:41-44 | a validated scalar condition that compares a number with NaN raises an error that is no configuration error |
| Conditions.ValidatedNeverFails | apps/scoring/services.py:72-109 | a validated tree over scalars without ordering, BETWEEN or REGEX evaluates on all facts |
| Conditions.ExistsAgreesExactly | apps/scoring/engine.py:77-80 | EXISTS and NOT_EXISTS agree with whether the field has a value exactly when the field is not signal_types or some signal is visible |
| Conditions.SignalTypesExactly | apps/scoring/engine.py:100-112 | for a validated condition collecting the signal types raises exactly when some HAS_SIGNAL item is a list or a mapping |
| ConditionMeaning.CheckedMeans | apps/scoring/engine.py:47-97 | a validated condition that evaluates gives its meaning: "all" holds when every child does, "any" when some child does, "not" when its child does not, and each operator what it says of the fact, by the order of the numbers, membership, occurrence in the text or the beginning of a code |
| ConditionMeaning.AcceptsExactly | apps/scoring/services.py:72-109 | a condition passes validation exactly when it is at most six objects deep and each object is a lone "all" or "any" over a non-empty list, a lone "not", or the three entries of a known field, an allowed operator and a value that operator takes |
| ScoreMeaning.TypesAreNamed | apps/scoring/engine.py:100-112 | the types collected from a validated condition are exactly those some HAS_SIGNAL in it names |
| ScoreMeaning.ScoreMeans | apps/scoring/engine.py:139-217 | the contributions of a score are exactly the active rules whose condition means something true, by order and key; each has the latest observation its condition names, the multiplier of that age in calendar days, and its rounded points under what its group's cap still leaves; each dimension is their sum within 0..100 |
| Rounding.RoundIsNearest | apps/scoring/engine.py:135-136 | quantize picks the nearest thousandth and the even one of two equally near |
| ScoreCalculation.FirstRelevant | apps/scoring/engine.py:164-168 | the first relevant signal of the ordered query carries the latest relevant observation |
| ScoreCalculation.MatchRules | apps/scoring/engine.py:162-181 | the rule loop yields matches, group totals and critical outcome of the specification, or its first error, that of collecting signal types included |
| ScoreCalculation.AddDimensions | apps/scoring/engine.py:183-186 | the accumulation loop yields the clamped sums, or fails on an unknown dimension |
| ScoreCalculation.AddFormula | apps/scoring/engine.py:196-204 | the formula loop yields the listed terms and their clamped sum, or fails on a coefficient that is no number, infinite or too large to quantize |
| ScoreCalculation.SnapshotStore.CalculateScore | apps/scoring/engine.py:139-217 | the transaction refuses sets that are not published, or drafts where they are not allowed, returns the specified score of the rows its query gave (exactly the active, observed and unexpired signals), with contributions and dimensions as the facts and rules mean them, and appends one snapshot, or nothing on an error |
| GroupCaps.TotalsStayUnderCaps | apps/scoring/engine.py:171-176 | at every point of the loop a group's total is what its matches kept and lies between zero and the largest cap seen |
| GroupCaps.SharedCapIsMinimum | apps/scoring/engine.py:171-176 | with a shared cap C the total is min(C, points earned) |
| GroupCaps.SharedCapIgnoresOrder | apps/scoring/engine.py:171-176 | with a shared cap neither success nor the total depends on rule order |
| ScoreOrder.RulesInOrderPermute | apps/scoring/models.py:89-93 | (order, key) orders the rules of a set totally, so row order is forgotten |
| ScoreOrder.ScoreIgnoresRowOrder | apps/scoring/engine.py:139-217 | for rules that do not read the text of the signal types, or equal texts, permuting signals, tied rows, rules or formula entries changes neither the score nor whether there is one |
| ScoreGuarantees.RowOrderMattersExactly | apps/scoring/engine.py:81-90 | for any one validated rule two row orders give the same score or error exactly when its condition evaluates alike on the two texts of the signal types |
| ScoreGuarantees.TiesDecide | apps/scoring/engine.py:159-161 | two signals observed at one instant give the same stored data two scores when only one of the two texts holds the keyword |
| ScoreBounds.SnapshotReconstructs | apps/scoring/engine.py:183-204 | dimensions and priority can be recomputed from the snapshot, priority lies in 0..100 and is within n x 0.0005 of the unrounded clamped formula |
| ScoreBounds.CriticalOverrides | apps/scoring/engine.py:180-212 | the last matching critical outcome decides the classification, otherwise the thresholds do |
| ScoreBounds.BestProductIsBest | apps/scoring/engine.py:187-194 | the best product attains the largest product dimension, first in tie order, and the tied ones are exactly those that do |
| ScoreAgeing.AgeingNeverPromotes | apps/scoring/engine.py:115-136 | over the same visible signals, in any order, a later instant raises no dimension, priority or threshold, given falling curves, no caps, nonnegative weights and no rule that reads the text of the signal types |
| RuleSetValidation.CheckFormula | apps/scoring/services.py:114-132 | the formula passes exactly when its keys are right, every coefficient is finite or -Infinity, and the positive ones sum to 1 |
| RuleSetValidation.CheckThresholds | apps/scoring/services.py:134-146 | the thresholds pass exactly when they are numeric, distinct, in range and cover zero |
| RuleSetValidation.ValidateRuleSet | apps/scoring/services.py:112-178 | the error list is empty exactly for the valid rule sets |
| RuleSetValidation.ValidExactly | apps/scoring/services.py:112-178 | which rule sets are valid, without the validators: terms for exactly the dimensions of the target, none NaN or +Infinity, positive coefficients adding up to 1; distinct minimums in 0..100 with distinct classes and one zero; the three products in the tie order; rules on known dimensions with well-formed conditions and curves |
| RuleSetValidation.ClassificationIsTotal | apps/scoring/engine.py:127-132 | with valid thresholds classification never raises on 0..100 and is the unique class with the greatest minimum reached |
| RuleSetValidation.LookupIsCovering | apps/scoring/engine.py:115-124 | a valid curve has one covering interval at every age and the lookup returns its multiplier in 0..1 |
| ScoreGuarantees.CurveFallsExactly | apps/scoring/services.py:159-177 | an accepted curve gives no older age a larger multiplier exactly when its multipliers do not rise |
| ScoreGuarantees.ScoresAgeExactly | apps/scoring/engine.py:115-124 | for an accepted set of one decaying rule, no later instant gives a larger dimension exactly when the rounded points of its buckets do not rise |
| ScoreGuarantees.FallingCurvesFall | apps/scoring/engine.py:115-124 | curves that do not rise satisfy that condition for nonnegative points |
| ScoreGuarantees.FormulaFitsExactly | apps/scoring/engine.py:196-204 | a validated formula can be computed on all dimensions exactly when each coefficient is finite and 100 times it stays below the quantize limit |
| ScoreGuarantees.ValidSetsScore | apps/scoring/engine.py:139-217 | a validated set with such a formula and classes that fit their column scores a company exactly when the leaves of its active conditions find numbers, short texts and hashable items and, where a condition holds, it names no list or mapping as a signal |
| ScoreGuarantees.UnhashableItemRaises | apps/scoring/engine.py:100-105 | a validated condition that holds and whose score raises TypeError |
| ScoreGuarantees.InfiniteCoefficientNeverScores | apps/scoring/engine.py:196-201 | a coefficient of -Infinity passes validation and then no company is ever scored |
| ScoreGuarantees.HugeCoefficientRaises | apps/scoring/engine.py:196-201 | a coefficient of -1e30 passes validation and raises exactly when its dimension has points |
| ScoreGuarantees.PlainSetsScoreEveryCompany | apps/scoring/services.py:72-178 | over scalars and without numeric or REGEX leaves such a set scores every company of its target |
| RuleSetLifecycle.RuleSetStore.CloneActive | apps/scoring/services.py:220-262 | staff only; returns the existing draft, or a new inactive draft with the whole content of the live set, one version above every set of the target |
| RuleSetLifecycle.RuleSetStore.EditDraft | apps/scoring/views.py:32-55 | changes exactly drafts |
| RuleSetLifecycle.RuleSetStore.PublishDraft | apps/scoring/services.py:265-282 | publishes exactly valid drafts for staff, row by row: the draft goes live, the live set of its target retires and no other set changes; otherwise nothing changes |
| RuleSetLifecycle.RuleSetStore.Simulate | apps/scoring/services.py:294-313 | gives the score of a valid, not retired set, contributions and dimensions as the facts and rules mean them, and leaves the stored snapshots unchanged |
| RuleSetLifecycle.SeedsSatisfyInv | apps/scoring/migrations/0002_seed_initial_rules.py:26-64 | the seeded sets are valid, active and published, one per target |
| RuleSetLifecycle.SeedsScoreEveryCompany | apps/scoring/migrations/0002_seed_initial_rules.py:26-64 | the seeded rule sets give a score for every company, without any error |
| RuleSetLifecycle.RunKeepsInv | apps/scoring/services.py:220-313 | in every reachable state each target has one active set, published, valid and newest among non-drafts, and at most one draft |
| RuleSetLifecycle.ContentIsFrozen | apps/scoring/views.py:31-131 | no set that left the draft state ever changes content or version |
| RuleSetLifecycle.CloneKeepsTheRules | apps/scoring/services.py:220-262 | a clone in any run makes a draft with every rule, formula entry and threshold of the set that was live, above its version |
| TermSearch.BoundarySearchIsTokenSearch | apps/signals/detector.py:95-104 | the look-around expression finds a term exactly when its tokens are a contiguous part of the text's tokens |
| TermSearch.NormalizeIdempotent | apps/signals/detector.py:27-30 | normalising a cleaned text is the identity |
| TermSearch.TokensAreRuns | apps/signals/detector.py:27-30 | the tokens of a text are the lower-case forms of its maximal runs of ASCII letters and digits |
| Detector.TermsMatchExactly | apps/signals/detector.py:95-104 | ANY needs one keyword, ALL needs every one, and a rule without keywords never matches |
| Detector.FoundInOrder | apps/signals/detector.py:95-104 | the terms found are the keywords among the text's tokens, as often and in the order the rule lists them |
| Detector.MatchedTerms | apps/signals/detector.py:95-104 | the keyword loop returns the specified terms |
| Detector.MatchRule | apps/signals/detector.py:49-74 | the loop over fields and postings returns the specified matches |
| Detector.MatchesAreExact | apps/signals/detector.py:49-74 | a rule matches a posting, or the record, exactly when a named field carries its terms, and at most once each |
| Detection.JobSignalDates | apps/signals/detector.py:81-92 | a posting signal is observed on the posting's day, or when it was first seen, and expires exactly at the earliest of the maximum age, the rule's days and the end of the posting's last day |
| GroundedSignals.ActiveExactlyWhenGrounded | apps/signals/detector.py:49-199 | after a run a generated signal is active exactly when a record, a rule and evidence exist such that a field the rule names has the rule's terms among its tokens |
| GroundedSignals.PostingSignalRow | apps/signals/detector.py:146-190 | the row of a matched posting: its record, observation and expiry, and under the first field that carries the terms, the terms found |
| GroundedSignals.RecordSignalRow | apps/signals/detector.py:160-190 | the row of a record matched by its own fields, likewise |
| Detection.ExactlyTheMatchedAreActive | apps/signals/detector.py:118-199 | after a run the active generated signals are exactly the pairs matched now; hand-made signals are untouched |
| Detection.MatchedCountsSignals | apps/signals/detector.py:139-192 | signals_matched is the number of distinct signals seen |
| Detection.SecondRunChangesNothing | apps/signals/detector.py:118-199 | a second run on the same data leaves every signal as it is |
| CompanyDetection.CompanySignals.DetectCompanySignals | apps/signals/detector.py:118-199 | exactly the active postings past their last day or too old end; then a generated signal is on exactly when it is grounded, on current postings only, every match has its row, hand-made signals stay, no detection is lost, and matched, created and deactivated signals are counted |
| CompanyDetection.GroundedOnCurrent | apps/signals/detector.py:120-124 | no active generated signal rests on a posting past its last day or the maximum age |
| CompanyDetection.DetectTwice | apps/signals/detector.py:118-199 | detecting twice on one day creates and deactivates nothing the second time |

## Left out

- HTTP, DNS, robots.txt, WebDAV XML, ZIP members and downloads: their results are given as rows and listings.
- Views, forms, templates, the administration site, dashboards, CSV export and `compare_rule_sets`: presentation and easy queries.
- Two-phase rule editing: an edit is one atomic step, although the view reads the draft status before it saves.
- Real threads and wall time of `maintain_job_lease`: heartbeats are events and the clock never goes back.
- The writes of `execute_job` that no lease guards (run status and counters, apps/jobs/services.py:185-231 and apps/sources/cnpj/jobs.py:351): the last worker to write them wins; of a stale worker only the transactions on the discovery tables are modelled, in `OverlappingRuns`.
- Unicode folding, digits outside Latin-1 and the compilation of regular expressions: ASCII case mapping, Latin-1 digits and given functions.
- Rounding of products and sums to 28 significant digits: they are exact, as they are for coefficients and multipliers of at most 20 digits; exponents beyond the limits of the decimal module or of PostgreSQL's numeric type.
- SQLite, which stores texts wider than their columns.
- The widths of other columns (worker ids, file URLs and tags of a manifest, names of signal rules and fields): values are taken to fit them.
- Limits on very long texts: the field size of the csv module and PostgreSQL's index entries, both above two thousand characters.
- The mode, the limit and the time stamps a discovery run copies into its report: values no decision reads.
- Discovery filters whose lists hold anything but texts: the job is taken to fail, although a number in some lists would only match nothing.
- `str` of nested lists and mappings inside CONTAINS values: shown by their JSON text instead of Python's.
- Field observations as rows of their own: they are kept with the source record that created them; the flag for the current observation is left out, it is not an invariant of the repository.
- Signal titles, excerpts, URLs and base weights: copied values that no decision reads.
- `enqueue_company_score`, score overrides, planning summaries and job posting reviews: single-branch facts.
- The checksum column of a dataset file and the validation of file URLs: not touched by the synchronisation modelled here.
- Discovery runs queued by hand with filters that are not their query's normalised ones: the coverage system takes the filters the views put into the job.
