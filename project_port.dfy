/**
 * ProjectPort: the per-project orchestrator. Its C# constructor starts
 * CreateInstanceAsync; here the constructor sets up the object and
 * CreateInstance is the initialisation that the caller awaits.
 */
module Project {
  import opened Wrappers
  import opened Strings
  import opened FileSystem
  import opened Config
  import opened Models
  import opened Collaborators
  import opened PortCoreUtils
  import opened RecommendationCache

  /** The rules-directory step of InitRules: the override copy when default rules are used with a rules directory. */
  function RulesOverride(useDefaultRules: bool, rulesDir: Option<string>, d: Disk, c: Constants): Result<Disk, PortError> {
    if useDefaultRules && !IsNullOrEmpty(rulesDir) then OverrideCopy(d, rulesDir.value, c) else Success(d)
  }

  /** ProjectReferences after a completed InitRules. */
  function ProjectReferencesFor(useDefaultRules: bool, a: AnalyzerResult, c: Constants): set<string> {
    if useDefaultRules then {c.projectRecommendationFile} + GetReferencesForProject(a)
    else {c.projectRecommendationFile}
  }

  /** The remote the loop talks to: a null service throws at the existence check. */
  function EffectiveRemote(httpService: Option<Remote>): Remote {
    if httpService.Some? then httpService.value else (url: string) => CheckFails
  }

  /** Taking `ns` off the namespaces still to do adds it to those done. */
  lemma OneMoreDone(refs: set<string>, todo: set<string>, ns: string)
    requires todo <= refs && ns in todo
    ensures (refs - todo) + {ns} == refs - (todo - {ns})
  {
  }

  class ProjectPort {
    const consts: Constants
    var Initiated: bool
    var ProjectReferences: set<string>
    var ProjectTypeFeatureResults: Option<Features>
    var portProjectResult: PortProjectResult?
    var projectRewriter: Option<ProjectRewriter>
    /** How often the rewriter's analysis step has been called. */
    ghost var analyzeCalls: nat

    constructor (c: Constants)
      ensures consts == c && !Initiated && ProjectReferences == {}
      ensures ProjectTypeFeatureResults == None && portProjectResult == null
      ensures projectRewriter == None && analyzeCalls == 0
    {
      consts := c;
      Initiated := false;
      ProjectReferences := {};
      ProjectTypeFeatureResults := None;
      portProjectResult := null;
      projectRewriter := None;
      analyzeCalls := 0;
    }

    /**
     * CreateInstanceAsync: the references start as the recommendation marker,
     * then InitProjectRewriter runs, and only when it completes is the port
     * `Initiated`.
     */
    method CreateInstance(a: AnalyzerResult, config: PortCoreConfiguration, features: Features,
                          engine: RewriteEngine, httpService: Option<Remote>, d: Disk)
      returns (d': Disk, outcome: Outcome<PortError>)
      requires !Initiated && portProjectResult == null && projectRewriter == None && analyzeCalls == 0
      modifies this, config`ProjectType, config`RulesDir
      ensures config.ProjectType == GetProjectType(features)
      ensures ProjectTypeFeatureResults == Some(features)
      ensures consts.projectRecommendationFile in ProjectReferences
      ensures Initiated <==> outcome.Pass?
      ensures var ov := RulesOverride(config.UseDefaultRules, old(config.RulesDir), d, consts);
        && (ov.Failure? ==>
              && outcome == Fail(ov.error) && d' == d
              && ProjectReferences == {consts.projectRecommendationFile}
              && config.RulesDir == old(config.RulesDir)
              && portProjectResult == null && projectRewriter == None && analyzeCalls == 0)
        && (ov.Success? ==>
              && ProjectReferences == ProjectReferencesFor(config.UseDefaultRules, a, consts)
              && config.RulesDir == (if config.UseDefaultRules then Some(consts.rulesDefaultPath) else old(config.RulesDir))
              && projectRewriter == Some(ProjectRewriter(engine, a))
              && analyzeCalls == 1)
        && (ov.Success? && engine.analyze(a).AnalysisFailed? ==>
              outcome == Fail(RewriterFailed) && d' == ov.value && portProjectResult == null)
        && (ov.Success? && engine.analyze(a).Analyzed? ==>
              var names := Candidates(ProjectReferences);
              var remote := EffectiveRemote(httpService);
              && outcome == Pass
              && portProjectResult != null && fresh(portProjectResult)
              && portProjectResult.ProjectFile == engine.analyze(a).projectFile
              && portProjectResult.ProjectActions == engine.analyze(a).actions
              && portProjectResult.References == {}
              && portProjectResult.DownloadedFiles == MatchedNames(names, ov.value, remote, consts)
              && d'.dirs == ov.value.dirs
              && d'.files == ov.value.files + WrittenFiles(names, ov.value, remote, consts))
    {
      ProjectReferences := {consts.projectRecommendationFile};
      d', outcome := InitProjectRewriter(a, config, features, engine, httpService, d);
      if outcome.Pass? {
        Initiated := true;
      }
    }

    /**
     * InitProjectRewriter: InitRules, the rewriter's analysis, and the
     * download of recommendation files, each only when the one before
     * completed.
     */
    method InitProjectRewriter(a: AnalyzerResult, config: PortCoreConfiguration, features: Features,
                               engine: RewriteEngine, httpService: Option<Remote>, d: Disk)
      returns (d': Disk, outcome: Outcome<PortError>)
      requires ProjectReferences == {consts.projectRecommendationFile}
      requires portProjectResult == null && projectRewriter == None && analyzeCalls == 0
      modifies this`ProjectTypeFeatureResults, this`ProjectReferences, this`portProjectResult
      modifies this`projectRewriter, this`analyzeCalls, config`ProjectType, config`RulesDir
      ensures config.ProjectType == GetProjectType(features)
      ensures ProjectTypeFeatureResults == Some(features)
      ensures consts.projectRecommendationFile in ProjectReferences
      ensures var ov := RulesOverride(config.UseDefaultRules, old(config.RulesDir), d, consts);
        && (ov.Failure? ==>
              && outcome == Fail(ov.error) && d' == d
              && ProjectReferences == {consts.projectRecommendationFile}
              && config.RulesDir == old(config.RulesDir)
              && portProjectResult == null && projectRewriter == None && analyzeCalls == 0)
        && (ov.Success? ==>
              && ProjectReferences == ProjectReferencesFor(config.UseDefaultRules, a, consts)
              && config.RulesDir == (if config.UseDefaultRules then Some(consts.rulesDefaultPath) else old(config.RulesDir))
              && projectRewriter == Some(ProjectRewriter(engine, a))
              && analyzeCalls == 1)
        && (ov.Success? && engine.analyze(a).AnalysisFailed? ==>
              outcome == Fail(RewriterFailed) && d' == ov.value && portProjectResult == null)
        && (ov.Success? && engine.analyze(a).Analyzed? ==>
              var names := Candidates(ProjectReferences);
              var remote := EffectiveRemote(httpService);
              && outcome == Pass
              && portProjectResult != null && fresh(portProjectResult)
              && portProjectResult.ProjectFile == engine.analyze(a).projectFile
              && portProjectResult.ProjectActions == engine.analyze(a).actions
              && portProjectResult.References == {}
              && portProjectResult.DownloadedFiles == MatchedNames(names, ov.value, remote, consts)
              && d'.dirs == ov.value.dirs
              && d'.files == ov.value.files + WrittenFiles(names, ov.value, remote, consts))
    {
      var fault;
      d', fault := InitRules(config, a, features, d);
      if fault.Some? {
        return d', Fail(fault.value);
      }
      d', outcome := AnalyzeAndDownload(a, engine, httpService, d');
    }

    /**
     * The steps of InitProjectRewriter after InitRules: build the rewriter,
     * run its analysis, and download the recommendation files.
     */
    method AnalyzeAndDownload(a: AnalyzerResult, engine: RewriteEngine, httpService: Option<Remote>, d: Disk)
      returns (d': Disk, outcome: Outcome<PortError>)
      requires portProjectResult == null && projectRewriter == None && analyzeCalls == 0
      modifies this`portProjectResult, this`projectRewriter, this`analyzeCalls
      ensures projectRewriter == Some(ProjectRewriter(engine, a)) && analyzeCalls == 1
      ensures engine.analyze(a).AnalysisFailed? ==>
        outcome == Fail(RewriterFailed) && d' == d && portProjectResult == null
      ensures engine.analyze(a).Analyzed? ==>
        var names := Candidates(ProjectReferences);
        var remote := EffectiveRemote(httpService);
        && outcome == Pass
        && portProjectResult != null && fresh(portProjectResult)
        && portProjectResult.ProjectFile == engine.analyze(a).projectFile
        && portProjectResult.ProjectActions == engine.analyze(a).actions
        && portProjectResult.References == {}
        && portProjectResult.DownloadedFiles == MatchedNames(names, d, remote, consts)
        && d'.dirs == d.dirs
        && d'.files == d.files + WrittenFiles(names, d, remote, consts)
    {
      projectRewriter := Some(ProjectRewriter(engine, a));
      analyzeCalls := analyzeCalls + 1;
      var analysis := projectRewriter.value.Initialize();
      if analysis.AnalysisFailed? {
        return d, Fail(RewriterFailed);
      }
      portProjectResult := new PortProjectResult(analysis.projectFile);
      portProjectResult.ProjectActions := analysis.actions;
      d' := DownloadRecommendationFiles(d, httpService);
      outcome := Pass;
    }

    /**
     * InitRules: classify the project and, when default rules are used, copy
     * the override rules, point the configuration at the default rules
     * directory and add the project's namespaces and the recommendation
     * marker to ProjectReferences.
     */
    method InitRules(config: PortCoreConfiguration, a: AnalyzerResult, features: Features, d: Disk)
      returns (d': Disk, fault: Option<PortError>)
      modifies this`ProjectTypeFeatureResults, this`ProjectReferences, config`ProjectType, config`RulesDir
      ensures ProjectTypeFeatureResults == Some(features)
      ensures config.ProjectType == GetProjectType(features)
      ensures var ov := RulesOverride(config.UseDefaultRules, old(config.RulesDir), d, consts);
        && (ov.Failure? ==>
              && fault == Some(ov.error) && d' == d
              && ProjectReferences == old(ProjectReferences) && config.RulesDir == old(config.RulesDir))
        && (ov.Success? ==>
              && fault == None && d' == ov.value
              && ProjectReferences
                 == (if config.UseDefaultRules
                     then old(ProjectReferences) + GetReferencesForProject(a) + {consts.projectRecommendationFile}
                     else old(ProjectReferences))
              && config.RulesDir
                 == (if config.UseDefaultRules then Some(consts.rulesDefaultPath) else old(config.RulesDir)))
    {
      ProjectTypeFeatureResults := Some(features);
      config.ProjectType := GetProjectType(features);
      d', fault := d, None;
      if config.UseDefaultRules {
        if !IsNullOrEmpty(config.RulesDir) {
          var copied := CopyOverrideRules(d, config.RulesDir.value, consts);
          if copied.Failure? {
            return d, Some(copied.error);
          }
          d' := copied.value;
        }
        config.RulesDir := Some(consts.rulesDefaultPath);
        ProjectReferences := ProjectReferences + GetReferencesForProject(a);
        ProjectReferences := ProjectReferences + {consts.projectRecommendationFile};
      }
    }

    /**
     * DownloadRecommendationFiles: fetch the rule files of ProjectReferences
     * and add the distinct matched names to the result's DownloadedFiles.
     */
    method DownloadRecommendationFiles(d: Disk, httpService: Option<Remote>) returns (d': Disk)
      requires portProjectResult != null
      modifies portProjectResult`DownloadedFiles
      ensures var names := Candidates(ProjectReferences);
        var remote := EffectiveRemote(httpService);
        && portProjectResult.DownloadedFiles
           == old(portProjectResult.DownloadedFiles) + MatchedNames(names, d, remote, consts)
        && d'.dirs == d.dirs
        && d'.files == d.files + WrittenFiles(names, d, remote, consts)
    {
      var matched, skip;
      ghost var probes, downloads;
      d', matched, skip, probes, downloads := FetchRecommendationFiles(ProjectReferences, d, EffectiveRemote(httpService), consts);
      var toAdd := matched;
      while toAdd != {}
        invariant toAdd <= matched
        invariant portProjectResult.DownloadedFiles == old(portProjectResult.DownloadedFiles) + (matched - toAdd)
        decreases |toAdd|
      {
        var file :| file in toAdd;
        portProjectResult.AddDownloadedFile(file);
        toAdd := toAdd - {file};
      }
    }

    /**
     * The `foreach` over the references of DownloadRecommendationFiles, with a
     * fresh skip memo. Every matched name, memo entry and written file is the
     * one FateOf gives its file name; each URL's existence is checked at most
     * once, only for files not on disk, and a download follows only a check
     * that reported the file present.
     */
    static method FetchRecommendationFiles(refs: set<string>, d: Disk, remote: Remote, c: Constants)
      returns (d': Disk, matched: set<string>, skip: set<Path>, ghost probes: seq<string>, ghost downloads: seq<string>)
      ensures d'.dirs == d.dirs
      ensures d'.files == d.files + WrittenFiles(Candidates(refs), d, remote, c)
      ensures Valid(d) ==> Valid(d')
      ensures matched == MatchedNames(Candidates(refs), d, remote, c)
      ensures skip == SkipMemo(Candidates(refs), d, remote, c)
      ensures (set u | u in probes) == ProbedUrls(Candidates(refs), d, c)
      ensures forall i, j :: 0 <= i < j < |probes| ==> probes[i] != probes[j]
      ensures forall u :: u in downloads <==> u in probes && remote(u).ReportsPresent()
    {
      d', matched, skip, probes, downloads := d, {}, {}, [], [];
      var todo := refs;
      ghost var probed: set<string> := {};
      NothingSettled(d, remote, c);
      assert Candidates(refs - todo) == {};
      while todo != {}
        invariant todo <= refs
        invariant Records(Candidates(refs - todo), d, remote, c, d', matched, skip, probed)
        invariant Valid(d) ==> Valid(d')
        invariant ProbeLog(probes, downloads, probed, remote)
        decreases |todo|
      {
        var ns :| ns in todo;
        d', matched, skip, probes, downloads, probed := SettleNamespace(refs, todo, ns, d, remote, c, d', matched, skip, probes, downloads, probed);
        todo := todo - {ns};
      }
      assert refs - todo == refs;
    }

    /**
     * One pass of the `foreach` for the namespace `ns` still to do: visit it
     * and log the URL it checked, if any.
     */
    static method SettleNamespace(refs: set<string>, todo: set<string>, ns: string, ghost d: Disk, remote: Remote, c: Constants,
                                  cur: Disk, matched: set<string>, skip: set<Path>,
                                  ghost probes: seq<string>, ghost downloads: seq<string>, ghost probed: set<string>)
      returns (cur': Disk, matched': set<string>, skip': set<Path>,
               ghost probes': seq<string>, ghost downloads': seq<string>, ghost probed': set<string>)
      requires todo <= refs && ns in todo
      requires Records(Candidates(refs - todo), d, remote, c, cur, matched, skip, probed)
      requires ProbeLog(probes, downloads, probed, remote)
      ensures Records(Candidates(refs - (todo - {ns})), d, remote, c, cur', matched', skip', probed')
      ensures ProbeLog(probes', downloads', probed', remote)
      ensures Valid(cur) ==> Valid(cur')
    {
      ghost var probe;
      cur', matched', skip', probe := VisitNamespace(ns, d, remote, c, cur, matched, skip, Candidates(refs - todo), probed);
      probed' := if probe.Some? then probed + {probe.value} else probed;
      SettledCandidates(refs - todo, ns, d, remote, c, cur', matched', skip', probed');
      OneMoreDone(refs, todo, ns);
      probes', downloads' := probes, downloads;
      if probe.Some? {
        LogProbe(probes, downloads, probed, remote, probe.value);
        if remote(probe.value).ReportsPresent() {
          downloads' := downloads + [probe.value];
        }
        probes' := probes + [probe.value];
      }
    }

    /**
     * One iteration of the `foreach`: nothing for an empty namespace or a
     * file in the skip memo; otherwise the `try` body for its file name, with
     * the memo and the matched names updated as the `catch` and the normal
     * path do. `probe` is the URL whose existence was checked, if any.
     */
    static method VisitNamespace(ns: string, ghost d: Disk, remote: Remote, c: Constants,
                                 cur: Disk, matched: set<string>, skip: set<Path>,
                                 ghost settled: set<string>, ghost probed: set<string>)
      returns (cur': Disk, matched': set<string>, skip': set<Path>, ghost probe: Option<string>)
      requires Records(settled, d, remote, c, cur, matched, skip, probed)
      ensures Records(settled + (if ns == "" then {} else {FileName(ns)}), d, remote, c, cur', matched', skip',
                      if probe.Some? then probed + {probe.value} else probed)
      ensures probe.Some? ==> probe.value !in probed
      ensures Valid(cur) ==> Valid(cur')
    {
      cur', matched', skip', probe := cur, matched, skip, None;
      if IsNullOrEmpty(Some(ns)) {
        assert settled + {} == settled;
        return;
      }
      var fileName := FileName(ns);
      var fullFileName := CachePath(fileName, c);
      if fileName !in settled {
        FirstVisit(settled, fileName, d, remote, c, cur, matched, skip, probed);
      } else {
        LaterVisit(settled, fileName, d, remote, c, cur, matched, skip, probed);
      }
      if fullFileName in skip {
        return;
      }
      if fullFileName !in cur.files {
        probe := Some(RemoteUrl(fileName, c));
      }
      var fate;
      cur', fate := FetchFile(fileName, cur, remote, c);
      skip' := if IsSkipped(fate) then skip + {fullFileName} else skip;
      matched' := if IsMatched(fate) then matched + {fileName} else matched;
    }

    /**
     * The body of the `try` for one file name not in the skip memo: nothing
     * when the file exists; otherwise the existence check and, when it
     * reports the file present, the download written to the rules directory.
     */
    static method FetchFile(fileName: string, d: Disk, remote: Remote, c: Constants) returns (d': Disk, fate: Fate)
      ensures fate == FateOf(fileName, d, remote, c)
      ensures d'.dirs == d.dirs
      ensures d' == AfterFate(fileName, fate, d, c)
      ensures WrittenContent(fate).Some? ==> c.rulesDefaultPath in d.dirs
    {
      var fullFileName := CachePath(fileName, c);
      if fullFileName in d.files {
        return d, Cached;
      }
      var reply := remote(RemoteUrl(fileName, c));
      match reply
      case CheckFails =>
        return d, Failed(None);
      case Absent =>
        return d, ReportedAbsent;
      case DownloadFails =>
        return d, Failed(None);
      case Present(content) =>
        if c.rulesDefaultPath !in d.dirs {
          return d, Failed(None);
        }
        return Disk(d.dirs, d.files[fullFileName := content]), Downloaded(content);
      case CopyFails(partial) =>
        if c.rulesDefaultPath !in d.dirs {
          return d, Failed(None);
        }
        return Disk(d.dirs, d.files[fullFileName := partial]), Failed(Some(partial));
    }

    /** AnalysisRun: the stored result when there is one; otherwise the rewriter's analysis, stored. */
    method AnalysisRun() returns (r: Result<PortProjectResult, PortError>)
      modifies this`portProjectResult, this`analyzeCalls
      ensures old(portProjectResult) != null ==>
        r == Success(old(portProjectResult)) && portProjectResult == old(portProjectResult)
        && analyzeCalls == old(analyzeCalls)
      ensures old(portProjectResult) == null && projectRewriter == None ==>
        r == Failure(NullReference) && portProjectResult == null && analyzeCalls == old(analyzeCalls)
      ensures old(portProjectResult) == null && projectRewriter.Some? ==>
        var analysis := projectRewriter.value.Initialize();
        && analyzeCalls == old(analyzeCalls) + 1
        && (analysis.AnalysisFailed? ==> r == Failure(RewriterFailed) && portProjectResult == null)
        && (analysis.Analyzed? ==>
              && r.Success? && r.value == portProjectResult && fresh(portProjectResult)
              && portProjectResult.ProjectFile == analysis.projectFile
              && portProjectResult.ProjectActions == analysis.actions
              && portProjectResult.References == {} && portProjectResult.DownloadedFiles == {})
    {
      if portProjectResult != null {
        return Success(portProjectResult);
      }
      if projectRewriter.None? {
        return Failure(NullReference);
      }
      analyzeCalls := analyzeCalls + 1;
      var analysis := projectRewriter.value.Initialize();
      if analysis.AnalysisFailed? {
        return Failure(RewriterFailed);
      }
      var result := new PortProjectResult(analysis.projectFile);
      result.ProjectActions := analysis.actions;
      portProjectResult := result;
      return Success(result);
    }

    /** Run: the rewriter's apply step on the actions of AnalysisRun's result. */
    method Run() returns (r: Result<ProjectResult, PortError>)
      modifies this`portProjectResult, this`analyzeCalls
      ensures old(portProjectResult) != null ==>
        portProjectResult == old(portProjectResult) && analyzeCalls == old(analyzeCalls)
      ensures old(portProjectResult) != null && projectRewriter.Some? ==>
        r == Success(projectRewriter.value.engine.apply(old(portProjectResult.ProjectActions)))
      ensures old(portProjectResult) == null && projectRewriter.Some? ==>
        var analysis := projectRewriter.value.Initialize();
        && analyzeCalls == old(analyzeCalls) + 1
        && (analysis.AnalysisFailed? ==> r == Failure(RewriterFailed) && portProjectResult == null)
        && (analysis.Analyzed? ==>
              && r == Success(projectRewriter.value.engine.apply(analysis.actions))
              && portProjectResult != null && fresh(portProjectResult)
              && portProjectResult.ProjectFile == analysis.projectFile
              && portProjectResult.ProjectActions == analysis.actions)
      ensures projectRewriter == None ==> r == Failure(NullReference)
    {
      var analysis := AnalysisRun();
      if analysis.Failure? {
        return Failure(analysis.error);
      }
      if projectRewriter.None? {
        return Failure(NullReference);
      }
      return Success(projectRewriter.value.engine.apply(analysis.value.ProjectActions));
    }
  }
}
