# Porting orchestrator: rule resolution and the rule cache

This project models the orchestration core of the Core Transformation
Assistant (CTA) porting engine, in Dafny, and proves what it promises.
It covers four things:

- **Project-type classification.** `PortCoreUtils.GetProjectType` maps a
  feature-detection result to one `ProjectType` through a fixed priority chain.
- **Reference extraction and rule augmentation.**
  - `GetReferencesForProject` gathers the namespaces a project mentions.
  - `AddWCFReferences` appends the WCF rule names of a project type.
  - `SolutionPort.InitRules` matches configurations with analyzer results,
    updates every kept configuration in place and gathers the solution's
    reference set.
- **The rule cache.**
  - `CopyOverrideRules` copies override rule files into the rules directory.
  - `ProjectPort.DownloadRecommendationFiles` fetches one rule file per
    referenced namespace, using a skip memo, a local-file check, a remote
    existence check and a download.
  - `SolutionPort.ResetCache` empties the cache once its lifetime is over.
  - `DeleteRecursivelyWithAttempts` makes at most three delete attempts.
- **The orchestrators' state.**
  - `ProjectPort`: its initialisation and the `Initiated` flag, the memoised
    `AnalysisRun`, and `Run`.
  - `SolutionPort`: its constructors, `RunProject`, the result lists it
    appends to, and its memoised `AnalysisRun`.
  - `PortProjectResult` and `CachedHttpServiceOptions`.

The collaborators are abstract:

- The file system is a value (`FileSystem.Disk`): directories with their
  creation ticks, and files addressed by directory and name.
- The remote recommendation store is an oracle from URL to reply
  (`Collaborators.RemoteReply`). The reply says whether the existence check
  reports the file present, reports it absent or throws. For a present file
  it also says whether the download delivers the file, fails, or fails
  after `File.Create`.
- The feature detector's verdicts are a record of booleans.
- The rewrite engine is a pair of functions: analyse and apply. Analysing
  a project (the rewriter's `Initialize`) is assumed to yield a new result
  holding the project file and its actions, with no references and no
  downloaded files. The code of `ProjectRewriter.Initialize` is not part of
  this model, so the claims that a result's `DownloadedFiles` are exactly
  the matched names rest on this assumption. The analysis depends on the
  analyzer result only: the factory also receives the configuration, which
  InitRules has updated by then (`ProjectType`, `RulesDir`), but how the
  rewriter uses it is outside this model, and no property here depends on
  it.
- The clock is an argument `now`, in ticks.
- The outcome of the k-th delete attempt is `outcome(k)`.
- The constants of `CTA.Rules.Config.Constants` and
  `CTA.Rules.PortCore.WCF.Constants` are a record parameter
  (`Config.Constants`).

Every thrown exception is a `Failure`/`Fail` carrying a `PortError`.

Where the source works in place, the model does too:

- `PortCoreConfiguration`, `PortProjectResult`, `ProjectPort`, `SolutionPort`
  and `CachedHttpServiceOptions` are classes whose methods update their fields.
- The loops are methods with `while` loops, each proved against a
  specification function:
  - `CopyOverrideRules` against `OverrideCopy`;
  - the download `foreach` against `FateOf`, `MatchedNames`, `SkipMemo` and
    `WrittenFiles`;
  - `SolutionPort.InitRules` against `InitRulesFrom`;
  - `ResetCache` against `ResetCacheResult`.

The download loop's specification works per file name: the first time the
loop meets a file name decides its fate. So the outcome does not depend on
the order in which the `HashSet` is enumerated, and case variants of a
namespace share one fate.

Notes on what the code does, which the model follows:

- A file the remote reports absent is still recorded as matched: the `else`
  branch falls through to `matchedFiles.Add`.
- The skip memo is created afresh by every `DownloadRecommendationFiles`
  call. The field `SolutionPort.SkipDownloadFiles` is created by every
  constructor but never read, so it is not modelled.
- A failure during the stream copy happens after `File.Create`, so a partial
  file stays in the rules directory. Later calls then treat it as cached.
- `GetReferencesForProject` drops null namespace and identifier strings but
  keeps empty strings. The download loop later skips empty strings. A null
  project result or a null file list gives the empty set through `?.`; the
  other nulls it meets throw (see "Left out").
- `RunProject` cannot reach its `ApplicationException`:
  - `await projectPort.Initialize` rethrows any exception of the
    initialisation;
  - `Initiated` is set exactly when the initialisation completes.

  The model therefore has no such branch. Its contract shows that the
  exception of the initialisation propagates instead.
- `SolutionPort.InitRules` is an `async Task` with no `await`, and its caller
  never awaits it. So it runs to completion or to its first exception
  synchronously, and the exception is lost. The configurations it updated
  before the exception stay updated, but the solution's references are not
  assigned.
- The constructor that takes analyzer results leaves the solution's analysis
  and run results null. A later `RunProject` on such an instance therefore
  throws a null dereference while appending its results. By then it has
  already changed the configuration and unioned the project's references
  into the solution's. A project file that is already keyed in the features
  dictionary throws after both appends.
- `Directory.GetCreationTime` of a missing directory is 1 January 1601.
  With a non-negative lifetime that counts as expired, so a missing rules
  directory is created.

## Model

| member | source | states |
|---|---|---|
| Strings.ToLowerHasNoUpper | src/CTA.Rules.PortCore/ProjectPort.cs:99 | A lower-cased namespace holds no ASCII upper-case letter |
| Strings.ToLowerIdempotent | src/CTA.Rules.PortCore/ProjectPort.cs:99 | Lower-casing an already lower-cased namespace changes nothing |
| Strings.ToLowerFixesLowerStrings | src/CTA.Rules.PortCore/ProjectPort.cs:99 | Lower-casing leaves a namespace unchanged exactly when it has no ASCII upper-case letter |
| FileSystem.JsonNamesHas | src/CTA.Rules.PortCore/PortCoreUtils.cs:117 | A name is among the enumerated ones exactly when a file of that name lies directly in the directory and ends in ".json" |
| FileSystem.RemoveDirectory | src/CTA.Rules.PortCore/SolutionPort.cs:370 | A successful recursive delete removes the directory and every file in it, and leaves every other directory and file as it was |
| FileSystem.CreateDirectory | src/CTA.Rules.PortCore/SolutionPort.cs:354 | The directory exists afterwards; an existing one keeps its creation time, a new one is dated now; files and other directories are unchanged |
| PortCoreUtils.GetProjectType | src/CTA.Rules.PortCore/PortCoreUtils.cs:53-108 | Total; the type is a VB type exactly when a VB predicate holds, and ClassLibrary exactly when no predicate holds; the two config-based WCF outcomes are decided by the service-host reference |
| PortCoreUtils.FirstMatchIsFirstTrue | src/CTA.Rules.PortCore/PortCoreUtils.cs:55-105 | A priority table yields the outcome of its first row whose predicate holds |
| PortCoreUtils.FirstMatchDefault | src/CTA.Rules.PortCore/PortCoreUtils.cs:107 | When no row holds, the priority table yields ClassLibrary |
| PortCoreUtils.GetProjectTypeIsFirstMatch | src/CTA.Rules.PortCore/PortCoreUtils.cs:55-107 | The if/else chain equals the first-true lookup in the priority order VBNetMvc, VBWebForms, VBWebApi, VBClassLibrary, Mvc, WebApi, WebForms, WebClassLibrary, WCF config-based, WCF code-based, WCF client, for every feature vector |
| PortCoreUtils.FirstTruePredicateWins | src/CTA.Rules.PortCore/PortCoreUtils.cs:55-105 | If predicate i is the first in that order that holds, the type is row i's outcome |
| PortCoreUtils.MvcPrecedesWebApi | src/CTA.Rules.PortCore/PortCoreUtils.cs:71-78 | With Mvc and WebApi both true and no VB predicate, the type is Mvc |
| PortCoreUtils.ServiceHostReferenceOnlyRefinesConfigBased | src/CTA.Rules.PortCore/PortCoreUtils.cs:87-97 | Changing only the service-host reference cannot change the type unless the config-based WCF branch is taken |
| PortCoreUtils.NonNullHas | src/CTA.Rules.PortCore/PortCoreUtils.cs:26-32 | A string survives the null filter exactly when it occurs in the list; nulls are dropped and empty strings kept |
| PortCoreUtils.MentionedHas | src/CTA.Rules.PortCore/PortCoreUtils.cs:26-48 | A string is gathered from a list of source files exactly when some file has it as a reference namespace, a `using` identifier or an `Imports` identifier |
| PortCoreUtils.ReferencesAreMentions | src/CTA.Rules.PortCore/PortCoreUtils.cs:21-51 | A namespace is in GetReferencesForProject exactly when the project result and its file list are non-null and some file mentions it in one of the three ways; a null result or list gives the empty set |
| PortCoreUtils.ExtractionExample | src/CTA.Rules.PortCore/PortCoreUtils.cs:26-40 | A file with usings "System", "System.Web.Mvc" and a null, and one reference to "System.Web.Mvc", yields exactly {"System", "System.Web.Mvc"} |
| PortCoreUtils.CopiedFilesStep | src/CTA.Rules.PortCore/PortCoreUtils.cs:118-121 | Copying one more file adds exactly its entry, with its content, to the rules directory |
| PortCoreUtils.CopyOverrideRules | src/CTA.Rules.PortCore/PortCoreUtils.cs:110-122 | The copy loop ends in the disk OverrideCopy describes: nothing when the source is the rules directory, DirectoryNotFound for a missing source, or for a missing rules directory when there is a file to copy, and otherwise the source's `*.json` files copied over |
| PortCoreUtils.CopyPlacesEveryJsonFile | src/CTA.Rules.PortCore/PortCoreUtils.cs:117-121 | After a successful copy, every `*.json` file of the source is in the rules directory under the same name with the same content, overwriting what was there |
| PortCoreUtils.CopyTouchesOnlyRulesDirectory | src/CTA.Rules.PortCore/PortCoreUtils.cs:117-121 | A copy creates no directory, keeps the disk well formed, and leaves every file outside the rules directory as it was |
| PortCoreUtils.CopyIsIdempotent | src/CTA.Rules.PortCore/PortCoreUtils.cs:117-121 | Copying the same overrides a second time changes nothing |
| Models.PortProjectResult.constructor | src/CTA.Rules.Models/PortProjectResult.cs:13-18 | ProjectFile is the project path; References and DownloadedFiles start empty |
| Models.PortProjectResult.AddDownloadedFile | src/CTA.Rules.Models/PortProjectResult.cs:11-17 | Set insertion into DownloadedFiles; a name already present changes nothing; References is left alone |
| Models.PortProjectResult.AddReference | src/CTA.Rules.Models/PortProjectResult.cs:11-17 | Set insertion into References; a name already present changes nothing; DownloadedFiles is left alone |
| RecommendationCache.RemoteUrlInjective | src/CTA.Rules.PortCore/ProjectPort.cs:111 | Distinct file names have distinct bucket URLs |
| RecommendationCache.CaseVariantsShareFile | src/CTA.Rules.PortCore/ProjectPort.cs:99-100 | Two namespaces map to the same rule file exactly when they have the same length and agree character by character up to ASCII letter case |
| RecommendationCache.SettleName | src/CTA.Rules.PortCore/ProjectPort.cs:103-131 | Settling one more file name adds its own entry to the matched names, the skip memo, the written files and the checked URLs, according to its fate, and changes no other entry |
| RecommendationCache.UnsettledName | src/CTA.Rules.PortCore/ProjectPort.cs:103-112 | A file name not met yet has no memo entry, no written file and no checked URL |
| RecommendationCache.SettledName | src/CTA.Rules.PortCore/ProjectPort.cs:103-125 | A file name already met and not in the memo is on disk and already matched |
| RecommendationCache.LogProbe | src/CTA.Rules.PortCore/ProjectPort.cs:109-115 | Logging the check of a URL not checked before keeps each URL checked at most once, and keeps the downloads exactly the checks that reported the file present |
| RecommendationCache.NothingSettled | src/CTA.Rules.PortCore/ProjectPort.cs:89-91 | The loop starts with the initial disk, no matched name, an empty memo and no remote call |
| RecommendationCache.FirstVisit | src/CTA.Rules.PortCore/ProjectPort.cs:103-131 | Meeting a new file name: it is not in the memo, its URL has not been checked, its fate on the current disk is its fate on the initial disk, and recording that fate settles it |
| RecommendationCache.LaterVisit | src/CTA.Rules.PortCore/ProjectPort.cs:103-109 | Meeting a settled file name again, for example from a case variant: unless it is in the memo, the file is on disk and already matched, so nothing changes |
| Project.ProjectPort.constructor | src/CTA.Rules.PortCore/ProjectPort.cs:36-45 | A new port is not initiated, holds no references, no features, no result and no rewriter |
| Project.ProjectPort.CreateInstance | src/CTA.Rules.PortCore/ProjectPort.cs:47-55 | Initiated holds exactly when InitRules, the rewriter's analysis and the download all completed; the marker is always in ProjectReferences; a failed override copy or a failed analysis is reported with the state reached so far; on success the result holds the analysed actions and exactly the matched file names |
| Project.ProjectPort.InitProjectRewriter | src/CTA.Rules.PortCore/ProjectPort.cs:57-63 | InitRules first; a failed override copy stops there with no rewriter and no analysis; otherwise the rewriter is built for the project, analysed once, and the matched recommendation files are downloaded |
| Project.ProjectPort.AnalyzeAndDownload | src/CTA.Rules.PortCore/ProjectPort.cs:60-62 | The rewriter is built for the project and analysed exactly once; a failed analysis leaves the disk and the result untouched; otherwise a fresh result holds the analysed file and actions, no references, and exactly the candidate names the store has or the remote serves, written to disk |
| Project.ProjectPort.InitRules | src/CTA.Rules.PortCore/ProjectPort.cs:65-85 | The project type is GetProjectType of the features; without default rules the references and rules directory are unchanged; with them the rules directory becomes the default path and the references gain the project's extracted namespaces and the marker; a failed override copy stops it first |
| Project.ProjectPort.DownloadRecommendationFiles | src/CTA.Rules.PortCore/ProjectPort.cs:87-139 | DownloadedFiles gains exactly the matched names of the references' rule files and keeps its entries; the disk gains exactly the written files |
| Project.ProjectPort.FetchRecommendationFiles | src/CTA.Rules.PortCore/ProjectPort.cs:89-133 | Over any order of the references: the matched names, the skip memo and the written files are those each file name's fate gives; only files missing locally are checked remotely, each URL at most once; a download follows only a check that reported the file present; no directory is created |
| Project.ProjectPort.SettleNamespace | src/CTA.Rules.PortCore/ProjectPort.cs:95-133 | One iteration keeps the loop's records equal to the fates of the namespaces done so far, and keeps the call log well formed |
| Project.ProjectPort.VisitNamespace | src/CTA.Rules.PortCore/ProjectPort.cs:97-131 | Null or empty namespaces change nothing; any other namespace settles its file name and checks a URL only if it has not been checked before |
| Project.ProjectPort.FetchFile | src/CTA.Rules.PortCore/ProjectPort.cs:108-125 | An existing file is kept without a remote call; otherwise the file's fate follows the remote's reply, and the disk gains the written content only when the rules directory exists |
| Project.ProjectPort.AnalysisRun | src/CTA.Rules.PortCore/ProjectPort.cs:144-155 | A stored result is returned without calling the rewriter; otherwise the rewriter is called once and its result stored; with no rewriter it is a null dereference |
| Project.ProjectPort.Run | src/CTA.Rules.PortCore/ProjectPort.cs:160-169 | Run goes through AnalysisRun and applies the rewriter to the actions: a stored result is applied without analysing again; with nothing stored the project is analysed exactly once, a failed analysis is the run's failure, and a successful one is stored and its actions applied; with no rewriter it is a null dereference |
| Solution.ExpiredIsOlderThanLifetime | src/CTA.Rules.PortCore/SolutionPort.cs:344-346 | The cache is to be cleaned exactly when its age at now exceeds its lifetime and the expiry time is representable (AddHours throws otherwise, and the catch leaves the cache) |
| Solution.ExpiredStaysExpired | src/CTA.Rules.PortCore/SolutionPort.cs:344-346 | A cache due for cleaning at some time stays due at every later time |
| Solution.OlderCacheExpiresFirst | src/CTA.Rules.PortCore/SolutionPort.cs:344-346 | An older cache with a representable expiry is due for cleaning whenever a younger one is |
| Solution.ServiceGetsOneProjectRule | src/CTA.Rules.PortCore/SolutionPort.cs:217-233 | A WCF service type gets the core WCF rules first, then exactly one project-specific rule, its own subtype's, and none of the other three |
| Solution.ClientAndOtherTypes | src/CTA.Rules.PortCore/SolutionPort.cs:235-238 | A WCF client gets only the client rule; every other non-service type gets no rule |
| Solution.FilterKeeps | src/CTA.Rules.PortCore/SolutionPort.cs:176-177 | `Where` keeps exactly the elements that satisfy the predicate |
| Solution.FilterAppend | src/CTA.Rules.PortCore/SolutionPort.cs:176-177 | `Where` keeps relative order: filtering a concatenation filters each part |
| Solution.FirstWithPath | src/CTA.Rules.PortCore/SolutionPort.cs:194-196 | `FirstOrDefault` finds a result exactly when some analyzer result reports the path, and then it is one of them and reports that path |
| Solution.FirstWithPathIsFirst | src/CTA.Rules.PortCore/SolutionPort.cs:194-196 | The result is the first analyzer result in list order that reports the path, so with two results for one path the earlier one supplies the references |
| Solution.KeptConfigFindsAnalyzer | src/CTA.Rules.PortCore/SolutionPort.cs:176-196 | A configuration is kept exactly when some analyzer result reports its path, and then the kept analyzer results have one for it |
| Solution.KeptAnalyzerHasConfig | src/CTA.Rules.PortCore/SolutionPort.cs:177 | An analyzer result is kept exactly when its project path is that of a kept configuration |
| Solution.FilterKeepsDistinct | src/CTA.Rules.PortCore/SolutionPort.cs:176 | Filtering keeps distinct elements distinct |
| Solution.KeptDistinct | src/CTA.Rules.PortCore/SolutionPort.cs:176 | Distinct configurations stay distinct once filtered |
| Solution.InitRulesFrom | src/CTA.Rules.PortCore/SolutionPort.cs:180-205 | The configurations are processed in order until the first exception; it completes exactly when all were processed, and each processed one has a features entry |
| Solution.NextConfig | src/CTA.Rules.PortCore/SolutionPort.cs:181-203 | Before any exception, one more configuration is one more step |
| Solution.FaultStops | src/CTA.Rules.PortCore/SolutionPort.cs:181-203 | After an exception the later configurations change nothing |
| Solution.RefsAreContributed | src/CTA.Rules.PortCore/SolutionPort.cs:180-205 | When no configuration throws, the references gathered are the union of what each configuration contributes |
| Solution.SolutionReferencesExact | src/CTA.Rules.PortCore/SolutionPort.cs:180-205 | When no configuration throws, a string is in the solution's references exactly when some kept configuration contributes it: through its final AdditionalReferences or, with default rules, through its project's extracted references |
| Solution.LastStepCompletes | src/CTA.Rules.PortCore/SolutionPort.cs:181-203 | When no configuration throws, every earlier one completed too and the last one adds its contribution |
| Solution.MarkerInSolutionReferences | src/CTA.Rules.PortCore/SolutionPort.cs:200-205 | With at least one kept configuration and no exception, the marker is in the solution's references |
| Solution.KeptListsNeverNull | src/CTA.Rules.PortCore/SolutionPort.cs:176-196 | When every configuration finds its analyzer result, InitRules never dereferences null |
| Solution.ProcessedEndsWithMarker | src/CTA.Rules.PortCore/SolutionPort.cs:198-200 | A processed configuration keeps its earlier AdditionalReferences in order and ends with the marker |
| Solution.StoppedAt | src/CTA.Rules.PortCore/SolutionPort.cs:181-203 | When the configuration at i throws, the earlier ones are processed, it keeps what was assigned before the exception, and the later ones are untouched |
| Solution.SolutionPort.WithHttpService | src/CTA.Rules.PortCore/SolutionPort.cs:44-60 | Empty analysis and run results, no features, no references and no solution rewriter |
| Solution.SolutionPort.WithAnalysis | src/CTA.Rules.PortCore/SolutionPort.cs:113-124 | Null analysis and run results and the solution rewriter over the analyzer results |
| Solution.SolutionPort.New | src/CTA.Rules.PortCore/SolutionPort.cs:44-60 | Constructing with an HTTP service resets the cache as ResetCacheResult says and sets up empty results |
| Solution.SolutionPort.NewWithAnalysis | src/CTA.Rules.PortCore/SolutionPort.cs:113-142 | Constructing with analyzer results resets the cache, then runs InitRules on the reset disk; the references are InitRules' union when it completes and stay empty when it throws; the configurations are left as InitRules left them |
| Solution.SolutionPort.AddWCFReferences | src/CTA.Rules.PortCore/SolutionPort.cs:214-239 | Appends exactly the WCF rules of the project type, keeping every existing entry in place |
| Solution.SolutionPort.InitRules | src/CTA.Rules.PortCore/SolutionPort.cs:171-212 | The disk, the exception and the configurations' new fields are as InitRulesFrom says over the kept configurations and analyzer results; the references are assigned only when every configuration completes; the features map is the detector's |
| Solution.SolutionPort.InitKept | src/CTA.Rules.PortCore/SolutionPort.cs:180-205 | The loop over the kept configurations ends in InitRulesFrom's state, with each configuration processed, stopped at or untouched accordingly |
| Solution.SolutionPort.InitStep | src/CTA.Rules.PortCore/SolutionPort.cs:181-203 | One pass of the loop: the configuration at the index becomes processed and the others keep their state, or the pass throws and the state is InitRulesFrom's state stopped at that index |
| Solution.SolutionPort.InitConfig | src/CTA.Rules.PortCore/SolutionPort.cs:183-202 | One configuration: a missing features entry throws first; then its type is set, a failed override copy throws, with default rules a missing analyzer result is a null dereference; otherwise its WCF rules and the marker are appended and all of it is unioned into the references |
| Solution.SolutionPort.RunProject | src/CTA.Rules.PortCore/SolutionPort.cs:144-160 | An exception of the initialisation propagates with the solution unchanged; otherwise the marker is appended to the configuration, the project's references are unioned into the solution's, and one analysis and one run result are appended as Appended says |
| Solution.SolutionPort.RecordProject | src/CTA.Rules.PortCore/SolutionPort.cs:150-156 | After initiation: the marker is appended to the configuration, the port's result is kept, the references are unioned into the solution's, and its analysis result and the run of its actions are appended as Appended says, the returned result being that run |
| Solution.SolutionPort.AppendProjectResult | src/CTA.Rules.PortCore/SolutionPort.cs:162-168 | Appends one analysis result, then one run result, then keys the features by project file; a null list or a duplicate key throws after the earlier updates |
| Solution.SolutionPort.AnalysisRun | src/CTA.Rules.PortCore/SolutionPort.cs:258-268 | Stored analysis results are returned without calling the rewriter (always the case after the HTTP-service constructor); otherwise the rewriter is called once and its results stored |
| Solution.SolutionPort.DeleteRecursivelyWithAttempts | src/CTA.Rules.PortCore/SolutionPort.cs:363-388 | One to three attempts; only I/O and access failures lead to another one; a success or a missing directory stops it, and any other exception escapes; only a success changes the disk |
| Solution.SolutionPort.ResetCache | src/CTA.Rules.PortCore/SolutionPort.cs:340-361 | The disk after the reset is ResetCacheResult: untouched unless expired, and otherwise deleted as the attempts allow and recreated, or untouched when an exception escapes |
| Solution.FreshCacheUntouched | src/CTA.Rules.PortCore/SolutionPort.cs:346-348 | A cache whose creation time plus lifetime is not before now is left exactly as it is (the comparison is strict) |
| Solution.HourOldCacheUntouched | src/CTA.Rules.PortCore/SolutionPort.cs:346-348 | With a 24-hour lifetime, a directory created one hour ago is untouched |
| Solution.StaleCacheEmptied | src/CTA.Rules.PortCore/SolutionPort.cs:346-355 | With a 24-hour lifetime, a directory created 40 hours ago whose first delete succeeds exists afterwards, empty and dated now |
| Solution.StaleCacheSurvivesFailedDeletes | src/CTA.Rules.PortCore/SolutionPort.cs:350-388 | When all three attempts fail with I/O or access errors, the directory and its files remain |
| Solution.ResetCacheIsFresh | src/CTA.Rules.PortCore/SolutionPort.cs:344-355 | A reset that changed the disk leaves a cache that is not expired at now |
| Solution.FirstStop | src/CTA.Rules.PortCore/SolutionPort.cs:365-387 | The attempt at which deleting stops is always between 1 and 3 |
| Solution.FirstStopIsAttempts | src/CTA.Rules.PortCore/SolutionPort.cs:365-387 | The attempts the delete loop reports are the first attempt that is not an I/O or access failure, or the third |
| Helpers.CachedHttpServiceOptions.New | src/CTA.Rules.Common/Utils/CachedHttpServiceOptions.cs:11-16 | A null, empty or whitespace-only name throws ArgumentNullException naming `serviceName`, and only such a name does; any other name is kept exactly, with BaseAddress and SolutionId unset |
| Helpers.CachedHttpServiceOptions.constructor | src/CTA.Rules.Common/Utils/CachedHttpServiceOptions.cs:11-16 | After validation, ServiceName is the argument and BaseAddress and SolutionId are unset |
| Helpers.CachedHttpServiceOptions.SetBaseAddress | src/CTA.Rules.Common/Utils/CachedHttpServiceOptions.cs:8 | Sets BaseAddress only; ServiceName is a constant and has no setter |
| Helpers.CachedHttpServiceOptions.SetSolutionId | src/CTA.Rules.Common/Utils/CachedHttpServiceOptions.cs:9 | Sets SolutionId only |

## Left out

- Async and concurrency: `Task`, `await`, `ConcurrentDictionary` and `ConcurrentBag` are modelled as sequential code over sets. The download `foreach` runs sequentially in the source too.
- The HTTP transport: `HttpClient`, `RecommendationsCachedHttpService` and `ICachedHttpService` are the remote oracle. A null HTTP service is modelled as a remote whose existence check throws, which is what the null dereference inside the `try` amounts to.
- Logging, `LogHelper` and `MetricsContext`, including `_context.AddProjectToMap` in AppendProjectResult: these only record diagnostics.
- Report generation and the members built on it (`GenerateAnalysisResult`, `GenerateRunResult`, `GenerateResults`, `GetAnalysisResult`, `Run` of SolutionPort): they hand the results to report generators whose code is not part of this model. Solution.SolutionPort.AnalysisRun therefore returns the rewriter's results without the report step.
- The constructor that runs the Codelyzer analysis, and the constructor taking an `IDEProjectResult`: the first drives an external build and analysis engine, and the second only stores its arguments for the external rewriter.
- `RunIncremental`: it is a call into the external rewriter.
- `DownloadResourceFiles`: it is a network download through a utility whose code is not part of this model.
- The feature detector, the `Is...Project()` predicates, and the internals of `ProjectRewriter` and `SolutionRewriter`: they are abstract inputs.
- `Thread.Sleep` between delete attempts: timing only.
- The local clock. `DateTime.Now` is the argument `now`, and creation times are ticks on the same clock.
- Subdirectories in the rules directory: the rules directory is modelled as flat.
- Strings.ToLower: maps only the ASCII letters, because the culture-dependent Unicode case mapping of `string.ToLower` is outside the model.
- FileSystem.RemoveDirectory: a delete that fails with an I/O or access error is modelled as changing nothing, though a real recursive delete may have removed some files before failing.
- Solution.SolutionPort.InitRules: requires the configurations to be distinct objects, because the model does not cover one configuration object listed twice being updated twice.
- Solution.SolutionPort.NewWithAnalysis: requires distinct configurations, for the same reason.
- Solution.SolutionPort.InitRules: configurations and analyzer results with a null project path are not modelled, because `ProjectPath` is a non-null string. In the C# code a configuration with a null path is kept when some analyzer result has a null `ProjectResult` or file path, since `null == null`. The features lookup then throws `ArgumentNullException`, and the un-awaited task loses that exception.
- FileSystem.JsonNamesHas: file names are compared case-sensitively, so a file named "A.JSON" is not enumerated, while `Directory.EnumerateFiles(dir, "*.json")` matches it on a case-insensitive file system such as the Windows default. The model is a case-sensitive file system throughout.
- PortCoreUtils.CopyOverrideRules: copies only the files whose names end in ".json" exactly, for the same reason; on a case-insensitive file system ".JSON" files are copied too.
- Project.ProjectPort.FetchFile: the cache lookup `File.Exists` is case-sensitive in the model. On a case-insensitive file system an override copied as "System.Web.json" counts as cached for the namespace "System.Web", whose rule file is "system.web.json"; the model checks the remote instead.
- PortCoreUtils.ReferencesAreMentions: a null entry in the file list, a null `References` list, a null reference entry and a null `Children` list make `GetReferencesForProject` throw a null dereference. The model's analyzer records cannot hold these nulls, so these exceptions are not modelled; only null namespace strings and the two `?.` links are.
- Solution.SolutionPort.ResetCache: `Directory.CreateDirectory` always succeeds in the model. In the C# code a throwing create is caught by the surrounding `catch`, which leaves the disk as the delete left it.
- Project.ProjectPort.CreateInstance: requires a fresh port, because the C# constructor always starts the initialisation on a new object and nothing calls it twice.
