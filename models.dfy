/**
 * The records the orchestrator reads and fills: the project classification,
 * the caller's per-project configuration and the per-project result.
 */
module Models {
  import opened Wrappers

  datatype ProjectType =
    | VBNetMvc | VBWebForms | VBWebApi | VBClassLibrary
    | Mvc | WebApi | WebForms | WebClassLibrary
    | WCFConfigBasedService | WCFServiceLibrary | WCFCodeBasedService | WCFClient
    | ClassLibrary

  /** The actions the rewrite engine proposes for a project, by name. */
  type ProjectActions = seq<string>

  /** What the rewrite engine returns after applying a project's actions. */
  datatype ProjectResult = ProjectResult(projectFile: string, executedActions: seq<string>)

  /**
   * PortCoreConfiguration: owned by the caller and updated in place while the
   * rules of its project are resolved. The project path and the default-rules
   * flag are only read.
   */
  class PortCoreConfiguration {
    const ProjectPath: string
    const UseDefaultRules: bool
    var ProjectType: ProjectType
    var RulesDir: Option<string>
    var AdditionalReferences: seq<string>

    constructor (projectPath: string, useDefaultRules: bool, rulesDir: Option<string>, additionalReferences: seq<string>)
      ensures ProjectPath == projectPath && UseDefaultRules == useDefaultRules
      ensures ProjectType == ClassLibrary && RulesDir == rulesDir
      ensures AdditionalReferences == additionalReferences
    {
      ProjectPath := projectPath;
      UseDefaultRules := useDefaultRules;
      ProjectType := ClassLibrary;
      RulesDir := rulesDir;
      AdditionalReferences := additionalReferences;
    }
  }

  /**
   * PortProjectResult: a project's analysis result. `References` and
   * `DownloadedFiles` are two separate sets that callers add to.
   */
  class PortProjectResult {
    var ProjectFile: string
    var ProjectActions: ProjectActions
    var References: set<string>
    var DownloadedFiles: set<string>

    constructor (projectPath: string)
      ensures ProjectFile == projectPath
      ensures References == {} && DownloadedFiles == {}
      ensures ProjectActions == []
    {
      ProjectFile := projectPath;
      ProjectActions := [];
      References := {};
      DownloadedFiles := {};
    }

    /** `DownloadedFiles.Add(name)`: set insertion, leaving `References` alone. */
    method AddDownloadedFile(name: string)
      modifies this`DownloadedFiles
      ensures DownloadedFiles == old(DownloadedFiles) + {name}
      ensures old(name in DownloadedFiles) ==> DownloadedFiles == old(DownloadedFiles)
    {
      DownloadedFiles := DownloadedFiles + {name};
    }

    /** `References.Add(name)`: set insertion, leaving `DownloadedFiles` alone. */
    method AddReference(name: string)
      modifies this`References
      ensures References == old(References) + {name}
      ensures old(name in References) ==> References == old(References)
    {
      References := References + {name};
    }
  }
}
