/**
 * PortCoreUtils: project-type classification, extraction of the namespaces a
 * project refers to, and copying of override rule files into the rules
 * directory.
 */
module PortCoreUtils {
  import opened Wrappers
  import opened Strings
  import opened FileSystem
  import opened Config
  import opened Models
  import opened Collaborators

  // ---------------------------------------------------------------------
  // Project-type classification
  // ---------------------------------------------------------------------

  predicate AnyVBPredicate(f: Features) {
    f.isVBNetMvc || f.isVBWebForms || f.isVBWebApi || f.isVBClassLibrary
  }

  predicate IsVBType(t: ProjectType) {
    t == VBNetMvc || t == VBWebForms || t == VBWebApi || t == VBClassLibrary
  }

  /** No classifying predicate holds (`HasServiceHostReference` only refines one of them). */
  predicate NoPredicateHolds(f: Features) {
    && !AnyVBPredicate(f)
    && !f.isMvc && !f.isWebApi && !f.isAspNetWebForms && !f.isWebClassLibrary
    && !f.isWCFServiceConfigBased && !f.isWCFServiceCodeBased && !f.isWCFClient
  }

  /**
   * GetProjectType: the if/else chain over the feature predicates. Every
   * feature vector gets exactly one type; a VB type exactly when a VB predicate
   * holds, and ClassLibrary exactly when no predicate holds.
   */
  function GetProjectType(f: Features): (t: ProjectType)
    ensures AnyVBPredicate(f) <==> IsVBType(t)
    ensures NoPredicateHolds(f) <==> t == ClassLibrary
    ensures t == WCFConfigBasedService ==> f.isWCFServiceConfigBased && f.hasServiceHostReference
    ensures t == WCFServiceLibrary ==> f.isWCFServiceConfigBased && !f.hasServiceHostReference
  {
    if f.isVBNetMvc then VBNetMvc
    else if f.isVBWebForms then VBWebForms
    else if f.isVBWebApi then VBWebApi
    else if f.isVBClassLibrary then VBClassLibrary
    else if f.isMvc then Mvc
    else if f.isWebApi then WebApi
    else if f.isAspNetWebForms then WebForms
    else if f.isWebClassLibrary then WebClassLibrary
    else if f.isWCFServiceConfigBased then
      (if f.hasServiceHostReference then WCFConfigBasedService else WCFServiceLibrary)
    else if f.isWCFServiceCodeBased then WCFCodeBasedService
    else if f.isWCFClient then WCFClient
    else ClassLibrary
  }

  /** The classifying predicates, one per row of the priority table. */
  datatype Check =
    | VBNetMvcCheck | VBWebFormsCheck | VBWebApiCheck | VBClassLibraryCheck
    | MvcCheck | WebApiCheck | WebFormsCheck | WebClassLibraryCheck
    | WCFConfigBasedCheck | WCFCodeBasedCheck | WCFClientCheck

  /** Whether the predicate of row `k` holds of `f`. */
  predicate Holds(k: Check, f: Features) {
    match k
    case VBNetMvcCheck => f.isVBNetMvc
    case VBWebFormsCheck => f.isVBWebForms
    case VBWebApiCheck => f.isVBWebApi
    case VBClassLibraryCheck => f.isVBClassLibrary
    case MvcCheck => f.isMvc
    case WebApiCheck => f.isWebApi
    case WebFormsCheck => f.isAspNetWebForms
    case WebClassLibraryCheck => f.isWebClassLibrary
    case WCFConfigBasedCheck => f.isWCFServiceConfigBased
    case WCFCodeBasedCheck => f.isWCFServiceCodeBased
    case WCFClientCheck => f.isWCFClient
  }

  /** The type row `k` assigns; only the config-based WCF row looks further, at the service-host reference. */
  function Outcome(k: Check, f: Features): ProjectType {
    match k
    case VBNetMvcCheck => VBNetMvc
    case VBWebFormsCheck => VBWebForms
    case VBWebApiCheck => VBWebApi
    case VBClassLibraryCheck => VBClassLibrary
    case MvcCheck => Mvc
    case WebApiCheck => WebApi
    case WebFormsCheck => WebForms
    case WebClassLibraryCheck => WebClassLibrary
    case WCFConfigBasedCheck => if f.hasServiceHostReference then WCFConfigBasedService else WCFServiceLibrary
    case WCFCodeBasedCheck => WCFCodeBasedService
    case WCFClientCheck => WCFClient
  }

  /** The classification order as data, highest priority first. */
  const PRIORITY: seq<Check> := [
    VBNetMvcCheck, VBWebFormsCheck, VBWebApiCheck, VBClassLibraryCheck,
    MvcCheck, WebApiCheck, WebFormsCheck, WebClassLibraryCheck,
    WCFConfigBasedCheck, WCFCodeBasedCheck, WCFClientCheck]

  /** The type of the first row whose predicate holds; ClassLibrary when none does. */
  function FirstMatch(table: seq<Check>, f: Features): ProjectType {
    if table == [] then ClassLibrary
    else if Holds(table[0], f) then Outcome(table[0], f)
    else FirstMatch(table[1..], f)
  }

  /** FirstMatch returns the outcome of the first row that holds. */
  lemma {:induction false} FirstMatchIsFirstTrue(table: seq<Check>, f: Features, i: nat)
    requires i < |table| && Holds(table[i], f)
    requires forall j :: 0 <= j < i ==> !Holds(table[j], f)
    ensures FirstMatch(table, f) == Outcome(table[i], f)
  {
    if i > 0 {
      FirstMatchIsFirstTrue(table[1..], f, i - 1);
    }
  }

  /** FirstMatch falls through to ClassLibrary when no row holds. */
  lemma {:induction false} FirstMatchDefault(table: seq<Check>, f: Features)
    requires forall j :: 0 <= j < |table| ==> !Holds(table[j], f)
    ensures FirstMatch(table, f) == ClassLibrary
  {
    if table != [] {
      FirstMatchDefault(table[1..], f);
    }
  }

  /** The if/else chain and the priority table classify every feature vector alike. */
  lemma GetProjectTypeIsFirstMatch(f: Features)
    ensures GetProjectType(f) == FirstMatch(PRIORITY, f)
  {
    var t := PRIORITY;
    if f.isVBNetMvc { FirstMatchIsFirstTrue(t, f, 0); }
    else if f.isVBWebForms { FirstMatchIsFirstTrue(t, f, 1); }
    else if f.isVBWebApi { FirstMatchIsFirstTrue(t, f, 2); }
    else if f.isVBClassLibrary { FirstMatchIsFirstTrue(t, f, 3); }
    else if f.isMvc { FirstMatchIsFirstTrue(t, f, 4); }
    else if f.isWebApi { FirstMatchIsFirstTrue(t, f, 5); }
    else if f.isAspNetWebForms { FirstMatchIsFirstTrue(t, f, 6); }
    else if f.isWebClassLibrary { FirstMatchIsFirstTrue(t, f, 7); }
    else if f.isWCFServiceConfigBased { FirstMatchIsFirstTrue(t, f, 8); }
    else if f.isWCFServiceCodeBased { FirstMatchIsFirstTrue(t, f, 9); }
    else if f.isWCFClient { FirstMatchIsFirstTrue(t, f, 10); }
    else { FirstMatchDefault(t, f); }
  }

  /** The type is the one of the first predicate that holds, in the fixed order. */
  lemma FirstTruePredicateWins(f: Features, i: nat)
    requires i < |PRIORITY| && Holds(PRIORITY[i], f)
    requires forall j :: 0 <= j < i ==> !Holds(PRIORITY[j], f)
    ensures GetProjectType(f) == Outcome(PRIORITY[i], f)
  {
    GetProjectTypeIsFirstMatch(f);
    FirstMatchIsFirstTrue(PRIORITY, f, i);
  }

  /** MVC precedes Web API: with both predicates true and no VB predicate, the type is Mvc. */
  lemma MvcPrecedesWebApi(f: Features)
    requires f.isMvc && f.isWebApi && !AnyVBPredicate(f)
    ensures GetProjectType(f) == Mvc
  {
  }

  /**
   * HasServiceHostReference is consulted only in the config-based WCF branch:
   * two vectors that differ only in it get the same type unless that branch is
   * reached.
   */
  lemma ServiceHostReferenceOnlyRefinesConfigBased(f: Features, g: Features)
    requires g == f.(hasServiceHostReference := g.hasServiceHostReference)
    requires GetProjectType(f) !in {WCFConfigBasedService, WCFServiceLibrary}
    ensures GetProjectType(g) == GetProjectType(f)
  {
  }

  // ---------------------------------------------------------------------
  // Namespace references of a project
  // ---------------------------------------------------------------------

  /** The non-null entries of `xs`. */
  function NonNull(xs: seq<Option<string>>): set<string> {
    if xs == [] then {}
    else NonNull(xs[..|xs| - 1]) + (if xs[|xs| - 1].Some? then {xs[|xs| - 1].value} else {})
  }

  /** Exactly the strings present in `xs` survive: nulls are dropped, empty strings kept. */
  lemma {:induction false} NonNullHas(xs: seq<Option<string>>, s: string)
    ensures s in NonNull(xs) <==> Some(s) in xs
  {
    if xs != [] {
      var init := xs[..|xs| - 1];
      NonNullHas(init, s);
      assert xs == init + [xs[|xs| - 1]];
    }
  }

  /** A source file mentions `ns` as a reference namespace, a `using` or an `Imports` identifier. */
  predicate Mentions(file: SourceFileResult, ns: string) {
    || Some(ns) in file.referenceNamespaces
    || Some(ns) in file.usingIdentifiers
    || Some(ns) in file.importsIdentifiers
  }

  /** The non-null reference namespaces, `using` and `Imports` identifiers of `files`. */
  function Mentioned(files: seq<SourceFileResult>): set<string> {
    if files == [] then {}
    else
      var last := files[|files| - 1];
      Mentioned(files[..|files| - 1])
      + NonNull(last.referenceNamespaces) + NonNull(last.usingIdentifiers) + NonNull(last.importsIdentifiers)
  }

  /** A string is collected exactly when some file mentions it. */
  lemma {:induction false} MentionedHas(files: seq<SourceFileResult>, ns: string)
    ensures ns in Mentioned(files) <==> exists i :: 0 <= i < |files| && Mentions(files[i], ns)
  {
    if files != [] {
      var init := files[..|files| - 1];
      var last := files[|files| - 1];
      MentionedHas(init, ns);
      NonNullHas(last.referenceNamespaces, ns);
      NonNullHas(last.usingIdentifiers, ns);
      NonNullHas(last.importsIdentifiers, ns);
      assert forall i :: 0 <= i < |init| ==> init[i] == files[i];
    }
  }

  /**
   * GetReferencesForProject: the union of reference namespaces, `using`
   * identifiers and `Imports` identifiers of all source files. Nulls are
   * dropped, empty strings kept; a null project result or file list gives
   * the empty set.
   */
  function GetReferencesForProject(a: AnalyzerResult): set<string> {
    if a.projectResult.None? || a.projectResult.value.sourceFileResults.None? then {}
    else Mentioned(a.projectResult.value.sourceFileResults.value)
  }

  /**
   * A namespace is extracted exactly when the project result and its file
   * list are present and some source file mentions it; so a null project
   * result or file list gives the empty set.
   */
  lemma ReferencesAreMentions(a: AnalyzerResult, ns: string)
    ensures ns in GetReferencesForProject(a) <==>
      && a.projectResult.Some? && a.projectResult.value.sourceFileResults.Some?
      && exists i :: 0 <= i < |a.projectResult.value.sourceFileResults.value|
                     && Mentions(a.projectResult.value.sourceFileResults.value[i], ns)
  {
    if a.projectResult.Some? && a.projectResult.value.sourceFileResults.Some? {
      MentionedHas(a.projectResult.value.sourceFileResults.value, ns);
    }
  }

  /**
   * A file whose `using` identifiers are "System", "System.Web.Mvc" and null,
   * and whose one reference is to "System.Web.Mvc", yields exactly those two
   * namespaces.
   */
  lemma ExtractionExample()
    ensures GetReferencesForProject(AnalyzerResult(Some(ProjectAnalysis(Some("p.csproj"), Some([
      SourceFileResult([Some("System.Web.Mvc")], [Some("System"), Some("System.Web.Mvc"), None], [])])))))
      == {"System", "System.Web.Mvc"}
  {
    var file := SourceFileResult([Some("System.Web.Mvc")], [Some("System"), Some("System.Web.Mvc"), None], []);
    var a := AnalyzerResult(Some(ProjectAnalysis(Some("p.csproj"), Some([file]))));
    var refs := GetReferencesForProject(a);
    forall ns | ns in refs ensures ns == "System" || ns == "System.Web.Mvc" {
      ReferencesAreMentions(a, ns);
      assert Mentions(file, ns);
    }
    assert Mentions(file, "System") && Mentions(file, "System.Web.Mvc");
    ReferencesAreMentions(a, "System");
    ReferencesAreMentions(a, "System.Web.Mvc");
  }

  // ---------------------------------------------------------------------
  // Override rules
  // ---------------------------------------------------------------------

  /**
   * What CopyOverrideRules does to the disk: nothing when the source is the
   * rules directory itself; otherwise a missing source directory throws, a
   * missing rules directory throws on the first copy, and else every `*.json`
   * file of the source is copied under the same name into the rules
   * directory, overwriting.
   */
  function OverrideCopy(d: Disk, sourceDir: string, c: Constants): Result<Disk, PortError> {
    var dest := c.rulesDefaultPath;
    if sourceDir == dest then Success(d)
    else if sourceDir !in d.dirs then Failure(DirectoryNotFound(sourceDir))
    else if JsonNames(d, sourceDir) != {} && dest !in d.dirs then Failure(DirectoryNotFound(dest))
    else Success(Disk(d.dirs, d.files + CopiedFiles(d, sourceDir, dest, JsonNames(d, sourceDir))))
  }

  /** The rules-directory entries that copying `names` from `sourceDir` creates. */
  function CopiedFiles(d: Disk, sourceDir: string, dest: string, names: set<string>): map<Path, string> {
    map p | p in (set n | n in names && Path(sourceDir, n) in d.files :: Path(dest, n)) :: d.files[Path(sourceDir, p.name)]
  }

  /** One more name copied leaves one fewer to copy. */
  lemma OneMoreCopied(files: set<string>, copied: set<string>, name: string)
    requires name in files - copied
    ensures files - (copied + {name}) == (files - copied) - {name}
    ensures |files - (copied + {name})| < |files - copied|
  {
    assert files - (copied + {name}) == (files - copied) - {name};
  }

  /** Copying one more name adds exactly its rules-directory entry. */
  lemma CopiedFilesStep(d: Disk, sourceDir: string, dest: string, names: set<string>, name: string)
    requires forall n :: n in names + {name} ==> Path(sourceDir, n) in d.files
    ensures d.files + CopiedFiles(d, sourceDir, dest, names + {name})
         == (d.files + CopiedFiles(d, sourceDir, dest, names))[Path(dest, name) := d.files[Path(sourceDir, name)]]
  {
    var before := CopiedFiles(d, sourceDir, dest, names);
    var after := CopiedFiles(d, sourceDir, dest, names + {name});
    assert Path(dest, name) in (set n | n in names + {name} :: Path(dest, n));
    assert after == before[Path(dest, name) := d.files[Path(sourceDir, name)]] by {
      forall p | p in after ensures p in before || p == Path(dest, name) {
      }
      forall p | p in before ensures p in after {
      }
    }
  }

  /**
   * CopyOverrideRules: the loop over the `*.json` files of `sourceDir`, each
   * copied into the rules directory with overwrite.
   */
  method CopyOverrideRules(d: Disk, sourceDir: string, c: Constants) returns (r: Result<Disk, PortError>)
    ensures r == OverrideCopy(d, sourceDir, c)
  {
    var dest := c.rulesDefaultPath;
    if sourceDir == dest {
      return Success(d);
    }
    if sourceDir !in d.dirs {
      return Failure(DirectoryNotFound(sourceDir));
    }
    var files := JsonNames(d, sourceDir);
    var copied: set<string> := {};
    var disk := d;
    while copied != files
      invariant copied <= files
      invariant copied != {} ==> dest in d.dirs
      invariant disk == Disk(d.dirs, d.files + CopiedFiles(d, sourceDir, dest, copied))
      decreases |files - copied|
    {
      var name :| name in files - copied;
      if dest !in disk.dirs {
        return Failure(DirectoryNotFound(dest));
      }
      CopiedFilesStep(d, sourceDir, dest, copied, name);
      OneMoreCopied(files, copied, name);
      disk := Disk(disk.dirs, disk.files[Path(dest, name) := d.files[Path(sourceDir, name)]]);
      copied := copied + {name};
    }
    return Success(disk);
  }

  /** After a successful copy every `*.json` file of the source sits in the rules directory with its content. */
  lemma CopyPlacesEveryJsonFile(d: Disk, sourceDir: string, c: Constants, name: string)
    requires OverrideCopy(d, sourceDir, c).Success? && sourceDir != c.rulesDefaultPath
    requires Path(sourceDir, name) in d.files && EndsWith(name, ".json")
    ensures var d' := OverrideCopy(d, sourceDir, c).value;
      Path(c.rulesDefaultPath, name) in d'.files
      && d'.files[Path(c.rulesDefaultPath, name)] == d.files[Path(sourceDir, name)]
  {
    assert Path(c.rulesDefaultPath, name) in (set n | n in JsonNames(d, sourceDir) :: Path(c.rulesDefaultPath, n));
  }

  /** A copy touches only the rules directory, creates no directory, and keeps the disk valid. */
  lemma CopyTouchesOnlyRulesDirectory(d: Disk, sourceDir: string, c: Constants, p: Path)
    requires Valid(d) && OverrideCopy(d, sourceDir, c).Success?
    requires p.dir != c.rulesDefaultPath
    ensures var d' := OverrideCopy(d, sourceDir, c).value;
      d'.dirs == d.dirs && Valid(d') && (p in d'.files <==> p in d.files)
      && (p in d.files ==> d'.files[p] == d.files[p])
  {
  }

  /** Copying the same overrides twice leaves the disk as copying them once. */
  lemma CopyIsIdempotent(d: Disk, sourceDir: string, c: Constants)
    requires OverrideCopy(d, sourceDir, c).Success?
    ensures var d' := OverrideCopy(d, sourceDir, c).value;
      OverrideCopy(d', sourceDir, c) == Success(d')
  {
    var dest := c.rulesDefaultPath;
    if sourceDir != dest {
      var d' := OverrideCopy(d, sourceDir, c).value;
      var names := JsonNames(d, sourceDir);
      var copies := CopiedFiles(d, sourceDir, dest, names);
      assert JsonNames(d', sourceDir) == names by {
        forall n ensures n in JsonNames(d', sourceDir) <==> n in names {
          JsonNamesHas(d', sourceDir, n);
          JsonNamesHas(d, sourceDir, n);
        }
      }
      var again := CopiedFiles(d', sourceDir, dest, names);
      forall p | p in again ensures p in d'.files && d'.files[p] == again[p] {
        assert p in copies;
      }
      assert d'.files + again == d'.files;
    }
  }
}
