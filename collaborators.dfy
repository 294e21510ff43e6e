/**
 * The shapes of what the orchestrator receives from collaborators whose code
 * is not part of this model: the source analyzer, the feature detector, the
 * remote recommendation store, the rewrite engine and the file-system delete.
 */
module Collaborators {
  import opened Wrappers
  import opened Models

  /** The feature detector's verdicts for one project (the `Is...Project()` extension predicates). */
  datatype Features = Features(
    isVBNetMvc: bool,
    isVBWebForms: bool,
    isVBWebApi: bool,
    isVBClassLibrary: bool,
    isMvc: bool,
    isWebApi: bool,
    isAspNetWebForms: bool,
    isWebClassLibrary: bool,
    isWCFServiceConfigBased: bool,
    hasServiceHostReference: bool,
    isWCFServiceCodeBased: bool,
    isWCFClient: bool)

  /**
   * One analyzed source file: the namespaces of its references, and the
   * identifiers of its `using` directives and `Imports` statements. Any of
   * them may be null.
   */
  datatype SourceFileResult = SourceFileResult(
    referenceNamespaces: seq<Option<string>>,
    usingIdentifiers: seq<Option<string>>,
    importsIdentifiers: seq<Option<string>>)

  /** The analyzer's `ProjectResult`; its path and file list may be null. */
  datatype ProjectAnalysis = ProjectAnalysis(projectFilePath: Option<string>, sourceFileResults: Option<seq<SourceFileResult>>)

  /** The analyzer's `AnalyzerResult`; its `ProjectResult` may be null. */
  datatype AnalyzerResult = AnalyzerResult(projectResult: Option<ProjectAnalysis>)

  /** `analyzerResult.ProjectResult?.ProjectFilePath`. */
  function ProjectFilePathOf(a: AnalyzerResult): Option<string> {
    if a.projectResult.Some? then a.projectResult.value.projectFilePath else None
  }

  /**
   * What the remote recommendation store does for one URL: the existence check
   * reports the file present (and the download then delivers it, fails before
   * any file is created, or fails while copying after `File.Create`), reports
   * it absent, or throws.
   */
  datatype RemoteReply =
    | Present(content: string)
    | Absent
    | CheckFails
    | DownloadFails
    | CopyFails(partial: string)
  {
    /** `DoesFileExistAsync` returned true. */
    predicate ReportsPresent() {
      Present? || DownloadFails? || CopyFails?
    }
  }

  /** The remote store as an oracle from URL to reply. */
  type Remote = string -> RemoteReply

  /** The outcome of one `Directory.Delete(dir, true)` call. */
  datatype DeleteOutcome = Deleted | NotFound | IOFailure | AccessDenied | OtherFailure

  /** What the rewrite engine's analysis step produced for a project, or that it threw. */
  datatype AnalysisOutcome = Analyzed(projectFile: string, actions: ProjectActions) | AnalysisFailed

  /** The project rewrite engine: an analysis step and an apply step. */
  datatype RewriteEngine = RewriteEngine(analyze: AnalyzerResult -> AnalysisOutcome, apply: ProjectActions -> ProjectResult)

  /** A project rewriter as built by the rewriter factory for one analyzed project. */
  datatype ProjectRewriter = ProjectRewriter(engine: RewriteEngine, project: AnalyzerResult) {
    function Initialize(): AnalysisOutcome {
      engine.analyze(project)
    }
  }

  /** The solution rewriter, by the project results its analysis step returns. */
  datatype SolutionRewriter = SolutionRewriter(analysisResults: seq<PortProjectResult>)

  /** The exceptions the orchestrator raises or lets through. */
  datatype PortError =
    | DirectoryNotFound(path: string)
    | RewriterFailed
    | NullReference
    | ApplicationException(message: string)
    | DuplicateKey(key: string)
    | KeyNotFound(key: string)
    | ArgumentNull(paramName: string)
}
