/**
 * SolutionPort: the solution-level orchestrator. It resets the rule cache,
 * resolves the rules of every configured project, runs single projects
 * through ProjectPort and keeps the solution's results.
 */
module Solution {
  import opened Wrappers
  import opened Strings
  import opened FileSystem
  import opened Config
  import opened Models
  import opened Collaborators
  import opened PortCoreUtils
  import opened RecommendationCache
  import opened Project

  // ---------------------------------------------------------------------
  // Rule cache expiry

  /** `Directory.GetCreationTime(RulesDefaultPath)` in ticks; a missing directory reports 1601-01-01. */
  function CreationTime(d: Disk, c: Constants): int {
    if c.rulesDefaultPath in d.dirs then d.dirs[c.rulesDefaultPath] else MISSING_PATH_CREATION_TIME
  }

  /** `recommendationsTime.AddHours(CacheExpiryHours)` in ticks, or None when it leaves the DateTime range and throws. */
  function ExpiryTime(d: Disk, c: Constants): Option<int> {
    var t := CreationTime(d, c) + c.cacheExpiryHours * TICKS_PER_HOUR;
    if 0 <= t <= MAX_TICKS then Some(t) else None
  }

  /** `cleanRecommendations`: the expiry time lies strictly before now. */
  predicate Expired(d: Disk, c: Constants, now: int) {
    var e := ExpiryTime(d, c);
    e.Some? && e.value < now
  }

  /**
   * The cache is expired exactly when its age at now exceeds its lifetime,
   * provided the expiry time is representable; an unrepresentable expiry
   * makes AddHours throw, so such a cache is never expired.
   */
  lemma ExpiredIsOlderThanLifetime(d: Disk, c: Constants, now: int)
    ensures Expired(d, c, now) <==>
      ExpiryTime(d, c).Some? && now - CreationTime(d, c) > c.cacheExpiryHours * TICKS_PER_HOUR
  {
  }

  /** A cache that is expired at some time stays expired at every later time. */
  lemma ExpiredStaysExpired(d: Disk, c: Constants, now: int, later: int)
    requires Expired(d, c, now) && now <= later
    ensures Expired(d, c, later)
  {
  }

  /**
   * Of two caches with representable expiry times, an older one is expired
   * whenever the younger one is.
   */
  lemma OlderCacheExpiresFirst(d1: Disk, d2: Disk, c: Constants, now: int)
    requires CreationTime(d1, c) <= CreationTime(d2, c)
    requires ExpiryTime(d1, c).Some? && Expired(d2, c, now)
    ensures Expired(d1, c, now)
  {
  }

  // ---------------------------------------------------------------------
  // WCF rule names

  /** The project types that get the CoreWCF service rules. */
  predicate IsWCFService(pt: ProjectType) {
    pt == WCFCodeBasedService || pt == WCFConfigBasedService || pt == WCFServiceLibrary
  }

  /** The subtype rule of a WCF service type. */
  function ServiceRule(pt: ProjectType, c: Constants): string
    requires IsWCFService(pt)
  {
    if pt == WCFConfigBasedService then c.coreWCFConfigBasedProjectRule
    else if pt == WCFCodeBasedService then c.coreWCFCodeBasedProjectRule
    else c.coreWCFServiceLibraryProjectRule
  }

  /** The four project-specific WCF rule names. */
  function ProjectRules(c: Constants): set<string> {
    {c.coreWCFConfigBasedProjectRule, c.coreWCFCodeBasedProjectRule,
     c.coreWCFServiceLibraryProjectRule, c.wcfClientProjectRule}
  }

  /** The rule names AddWCFReferences appends for a project type. */
  function WCFRules(pt: ProjectType, c: Constants): seq<string> {
    if IsWCFService(pt) then c.coreWCFRules + [ServiceRule(pt, c)]
    else if pt == WCFClient then [c.wcfClientProjectRule]
    else []
  }

  /**
   * A WCF service gets the core rules followed by exactly one
   * project-specific rule: its own subtype's, appearing once.
   */
  lemma ServiceGetsOneProjectRule(pt: ProjectType, c: Constants)
    requires c.DistinctWCFRuleNames() && IsWCFService(pt)
    ensures WCFRules(pt, c)[..|c.coreWCFRules|] == c.coreWCFRules
    ensures forall r :: r in ProjectRules(c) ==>
      multiset(WCFRules(pt, c))[r] == if r == ServiceRule(pt, c) then 1 else 0
  {
    var rules := WCFRules(pt, c);
    assert rules == c.coreWCFRules + [ServiceRule(pt, c)];
    forall r | r in ProjectRules(c)
      ensures multiset(rules)[r] == if r == ServiceRule(pt, c) then 1 else 0
    {
      assert r !in c.coreWCFRules;
      assert multiset(c.coreWCFRules)[r] == 0;
      assert multiset(rules) == multiset(c.coreWCFRules) + multiset{ServiceRule(pt, c)};
    }
  }

  /** A WCF client gets only the client rule; every other non-service type gets nothing. */
  lemma ClientAndOtherTypes(pt: ProjectType, c: Constants)
    requires !IsWCFService(pt)
    ensures pt == WCFClient ==> WCFRules(pt, c) == [c.wcfClientProjectRule]
    ensures pt != WCFClient ==> WCFRules(pt, c) == []
    ensures pt == WCFClient && c.DistinctWCFRuleNames() ==>
      forall r :: r in ProjectRules(c) ==> (r in WCFRules(pt, c) <==> r == c.wcfClientProjectRule)
  {
  }

  // ---------------------------------------------------------------------
  // Configuration and analyzer matching

  /** LINQ `Where`: the elements that satisfy `keep`, in their order. */
  function Filter<T>(s: seq<T>, keep: T -> bool): seq<T> {
    if s == [] then [] else (if keep(s[0]) then [s[0]] else []) + Filter(s[1..], keep)
  }

  /** Filter keeps exactly the elements that satisfy `keep`, and no more of them than there are. */
  lemma {:induction false} FilterKeeps<T>(s: seq<T>, keep: T -> bool)
    ensures |Filter(s, keep)| <= |s|
    ensures forall i :: 0 <= i < |Filter(s, keep)| ==> Filter(s, keep)[i] in s && keep(Filter(s, keep)[i])
    ensures forall i :: 0 <= i < |s| && keep(s[i]) ==> s[i] in Filter(s, keep)
  {
    if s != [] {
      FilterKeeps(s[1..], keep);
      var rest := Filter(s[1..], keep);
      var r := Filter(s, keep);
      assert r == (if keep(s[0]) then [s[0]] else []) + rest;
      forall i | 0 <= i < |r| ensures r[i] in s && keep(r[i]) {
        if !keep(s[0]) || i > 0 {
          assert r[i] == rest[if keep(s[0]) then i - 1 else i];
        }
      }
      forall i | 0 <= i < |s| && keep(s[i]) ensures s[i] in r {
        if i > 0 {
          assert s[i] == s[1..][i - 1];
        }
      }
    }
  }

  /** Filtering a concatenation filters each part: relative order is kept. */
  lemma {:induction false} FilterAppend<T>(a: seq<T>, b: seq<T>, keep: T -> bool)
    ensures Filter(a + b, keep) == Filter(a, keep) + Filter(b, keep)
  {
    if a == [] {
      assert a + b == b;
    } else {
      var head := if keep(a[0]) then [a[0]] else [];
      assert (a + b)[0] == a[0];
      assert (a + b)[1..] == a[1..] + b;
      FilterAppend(a[1..], b, keep);
      calc {
        Filter(a + b, keep);
        head + Filter(a[1..] + b, keep);
        head + (Filter(a[1..], keep) + Filter(b, keep));
        (head + Filter(a[1..], keep)) + Filter(b, keep);
        Filter(a, keep) + Filter(b, keep);
      }
    }
  }

  /** The project paths the analyzer results report (null included). */
  function AnalyzerPaths(analyzers: seq<AnalyzerResult>): set<Option<string>> {
    set a | a in analyzers :: ProjectFilePathOf(a)
  }

  /** The project paths of configurations. */
  function ConfigPaths(configs: seq<PortCoreConfiguration>): set<string> {
    set s | s in configs :: s.ProjectPath
  }

  /** The configurations whose ProjectPath some analyzer result reports. */
  function KeptConfigs(configs: seq<PortCoreConfiguration>, analyzers: seq<AnalyzerResult>): seq<PortCoreConfiguration> {
    Filter(configs, (s: PortCoreConfiguration) => Some(s.ProjectPath) in AnalyzerPaths(analyzers))
  }

  /** The analyzer results whose project path is that of a kept configuration. */
  function KeptAnalyzers(analyzers: seq<AnalyzerResult>, kept: seq<PortCoreConfiguration>): seq<AnalyzerResult> {
    Filter(analyzers, (a: AnalyzerResult) => ProjectFilePathOf(a).Some? && ProjectFilePathOf(a).value in ConfigPaths(kept))
  }

  /** `FirstOrDefault(a => a.ProjectResult?.ProjectFilePath == path)`. */
  function FirstWithPath(analyzers: seq<AnalyzerResult>, path: string): (r: Option<AnalyzerResult>)
    ensures r.Some? <==> Some(path) in AnalyzerPaths(analyzers)
    ensures r.Some? ==> r.value in analyzers && ProjectFilePathOf(r.value) == Some(path)
  {
    if analyzers == [] then None
    else if ProjectFilePathOf(analyzers[0]) == Some(path) then Some(analyzers[0])
    else
      var r := FirstWithPath(analyzers[1..], path);
      assert AnalyzerPaths(analyzers) == {ProjectFilePathOf(analyzers[0])} + AnalyzerPaths(analyzers[1..]);
      r
  }

  /**
   * FirstWithPath returns the first analyzer result reporting the path: the
   * one at index i when none before i reports it.
   */
  lemma {:induction false} FirstWithPathIsFirst(analyzers: seq<AnalyzerResult>, path: string, i: nat)
    requires i < |analyzers| && ProjectFilePathOf(analyzers[i]) == Some(path)
    requires forall j :: 0 <= j < i ==> ProjectFilePathOf(analyzers[j]) != Some(path)
    ensures FirstWithPath(analyzers, path) == Some(analyzers[i])
  {
    if i > 0 {
      assert analyzers[1..][i - 1] == analyzers[i];
      FirstWithPathIsFirst(analyzers[1..], path, i - 1);
    }
  }

  /**
   * The two filters agree: a configuration is kept exactly when its path is
   * reported by some analyzer result, and then the kept analyzer results
   * have one for it.
   */
  lemma KeptConfigFindsAnalyzer(configs: seq<PortCoreConfiguration>, analyzers: seq<AnalyzerResult>, s: PortCoreConfiguration)
    ensures s in KeptConfigs(configs, analyzers) <==> s in configs && Some(s.ProjectPath) in AnalyzerPaths(analyzers)
    ensures s in KeptConfigs(configs, analyzers) ==>
      FirstWithPath(KeptAnalyzers(analyzers, KeptConfigs(configs, analyzers)), s.ProjectPath).Some?
  {
    var kept := KeptConfigs(configs, analyzers);
    FilterKeeps(configs, (s: PortCoreConfiguration) => Some(s.ProjectPath) in AnalyzerPaths(analyzers));
    if s in kept {
      var a :| a in analyzers && ProjectFilePathOf(a) == Some(s.ProjectPath);
      assert s.ProjectPath in ConfigPaths(kept);
      var i :| 0 <= i < |analyzers| && analyzers[i] == a;
      FilterKeeps(analyzers, (a: AnalyzerResult) => ProjectFilePathOf(a).Some? && ProjectFilePathOf(a).value in ConfigPaths(kept));
      assert a in KeptAnalyzers(analyzers, kept);
    }
  }

  /** An analyzer result is kept exactly when its project path is that of a kept configuration. */
  lemma KeptAnalyzerHasConfig(analyzers: seq<AnalyzerResult>, kept: seq<PortCoreConfiguration>, a: AnalyzerResult)
    ensures a in KeptAnalyzers(analyzers, kept) <==>
      a in analyzers && ProjectFilePathOf(a).Some? && ProjectFilePathOf(a).value in ConfigPaths(kept)
  {
    FilterKeeps(analyzers, (a: AnalyzerResult) => ProjectFilePathOf(a).Some? && ProjectFilePathOf(a).value in ConfigPaths(kept));
  }

  /** Distinct elements stay distinct when filtered. */
  lemma {:induction false} FilterKeepsDistinct<T>(s: seq<T>, keep: T -> bool)
    requires forall i, j :: 0 <= i < j < |s| ==> s[i] != s[j]
    ensures forall i, j :: 0 <= i < j < |Filter(s, keep)| ==> Filter(s, keep)[i] != Filter(s, keep)[j]
  {
    if s != [] {
      FilterKeepsDistinct(s[1..], keep);
      FilterKeeps(s[1..], keep);
      var rest := Filter(s[1..], keep);
      forall k | 0 <= k < |rest| ensures rest[k] != s[0] {
        var m :| 0 <= m < |s[1..]| && s[1..][m] == rest[k];
        assert s[m + 1] == rest[k];
      }
      if keep(s[0]) {
        var r := [s[0]] + rest;
        assert Filter(s, keep) == r;
        forall i, j | 0 <= i < j < |r| ensures r[i] != r[j] {
          assert r[j] == rest[j - 1];
          if i > 0 {
            assert r[i] == rest[i - 1];
          }
        }
      } else {
        assert Filter(s, keep) == rest;
      }
    }
  }

  // ---------------------------------------------------------------------
  // InitRules

  /** The fields of a configuration InitRules reads, as they are before it runs. */
  datatype ConfigInput = ConfigInput(path: string, useDefaultRules: bool, rulesDir: Option<string>,
                                     additionalReferences: seq<string>, projectType: ProjectType)

  function InputOf(s: PortCoreConfiguration): ConfigInput
    reads s
  {
    ConfigInput(s.ProjectPath, s.UseDefaultRules, s.RulesDir, s.AdditionalReferences, s.ProjectType)
  }

  function Inputs(cs: seq<PortCoreConfiguration>): (r: seq<ConfigInput>)
    reads set s | s in cs
    ensures |r| == |cs| && forall i :: 0 <= i < |cs| ==> r[i] == InputOf(cs[i])
  {
    seq(|cs|, i requires 0 <= i < |cs| reads set s | s in cs => InputOf(cs[i]))
  }

  /** A configuration's AdditionalReferences once InitRules has processed it. */
  function FinalReferences(input: ConfigInput, pt: ProjectType, c: Constants): seq<string> {
    input.additionalReferences + WCFRules(pt, c) + [c.projectRecommendationFile]
  }

  /** What one processed configuration adds to the solution's references. */
  function ConfigReferences(input: ConfigInput, analyzers: seq<AnalyzerResult>, detected: map<string, Features>, c: Constants): set<string> {
    if input.path !in detected then {}
    else
    var a := FirstWithPath(analyzers, input.path);
    var extracted := if input.useDefaultRules && a.Some? then GetReferencesForProject(a.value) else {};
    var final := FinalReferences(input, GetProjectType(detected[input.path]), c);
    extracted + set r | r in final
  }

  /**
   * Where InitRules stands after a prefix of the kept configurations: the
   * disk, the references gathered, how many configurations were processed,
   * and the exception that stopped it, if any.
   */
  datatype InitState = InitState(disk: Disk, refs: set<string>, processed: nat, fault: Option<PortError>)

  /**
   * One configuration: look up its features (a missing key throws), copy
   * its override rules, then (with default rules) extract the references
   * of its analyzer result (a missing one is a null dereference).
   */
  function ConfigStep(st: InitState, input: ConfigInput, analyzers: seq<AnalyzerResult>,
                      detected: map<string, Features>, c: Constants): InitState
  {
    if input.path !in detected then st.(fault := Some(KeyNotFound(input.path)))
    else
      var ov := RulesOverride(input.useDefaultRules, input.rulesDir, st.disk, c);
      if ov.Failure? then st.(fault := Some(ov.error))
      else if input.useDefaultRules && FirstWithPath(analyzers, input.path).None? then
        st.(disk := ov.value, fault := Some(NullReference))
      else InitState(ov.value, st.refs + ConfigReferences(input, analyzers, detected, c), st.processed + 1, None)
  }

  /** InitRules over the kept configurations, in order, until the first exception. */
  function InitRulesFrom(inputs: seq<ConfigInput>, analyzers: seq<AnalyzerResult>,
                         detected: map<string, Features>, d: Disk, c: Constants): (st: InitState)
    ensures st.processed <= |inputs|
    ensures st.fault.None? <==> st.processed == |inputs|
    ensures forall j :: 0 <= j < st.processed ==> inputs[j].path in detected
  {
    if inputs == [] then InitState(d, {}, 0, None)
    else
      var prev := InitRulesFrom(inputs[..|inputs| - 1], analyzers, detected, d, c);
      if prev.fault.Some? then prev else ConfigStep(prev, inputs[|inputs| - 1], analyzers, detected, c)
  }

  /** Before any exception, one more configuration is one more ConfigStep. */
  lemma NextConfig(inputs: seq<ConfigInput>, i: nat, analyzers: seq<AnalyzerResult>,
                   detected: map<string, Features>, d: Disk, c: Constants)
    requires i < |inputs|
    requires InitRulesFrom(inputs[..i], analyzers, detected, d, c).fault.None?
    ensures InitRulesFrom(inputs[..i + 1], analyzers, detected, d, c)
      == ConfigStep(InitRulesFrom(inputs[..i], analyzers, detected, d, c), inputs[i], analyzers, detected, c)
  {
    assert inputs[..i + 1][..i] == inputs[..i];
  }

  /** Once a prefix has thrown, the later configurations change nothing. */
  lemma {:induction false} FaultStops(inputs: seq<ConfigInput>, k: nat, analyzers: seq<AnalyzerResult>,
                                      detected: map<string, Features>, d: Disk, c: Constants)
    requires k <= |inputs|
    requires InitRulesFrom(inputs[..k], analyzers, detected, d, c).fault.Some?
    ensures InitRulesFrom(inputs, analyzers, detected, d, c) == InitRulesFrom(inputs[..k], analyzers, detected, d, c)
    decreases |inputs| - k
  {
    if k < |inputs| {
      var init := inputs[..|inputs| - 1];
      assert init[..k] == inputs[..k];
      FaultStops(init, k, analyzers, detected, d, c);
    } else {
      assert inputs[..k] == inputs;
    }
  }

  /** The union of `f` over the elements of `xs`. */
  function UnionOf<T>(xs: seq<T>, f: T -> set<string>): set<string> {
    if xs == [] then {} else UnionOf(xs[..|xs| - 1], f) + f(xs[|xs| - 1])
  }

  /** A string is in the union exactly when one element contributes it. */
  lemma {:induction false} UnionOfHas<T>(xs: seq<T>, f: T -> set<string>, x: string)
    ensures x in UnionOf(xs, f) <==> exists j :: 0 <= j < |xs| && x in f(xs[j])
  {
    if xs != [] {
      var init := xs[..|xs| - 1];
      UnionOfHas(init, f, x);
      if x in UnionOf(init, f) {
        var j :| 0 <= j < |init| && x in f(init[j]);
        assert xs[j] == init[j];
      }
      if exists j :: 0 <= j < |xs| && x in f(xs[j]) {
        var j :| 0 <= j < |xs| && x in f(xs[j]);
        if j < |init| {
          assert xs[j] == init[j];
        }
      }
    }
  }

  /** ConfigReferences as a function of the configuration alone. */
  function Contribution(analyzers: seq<AnalyzerResult>, detected: map<string, Features>, c: Constants): ConfigInput -> set<string> {
    (input: ConfigInput) => ConfigReferences(input, analyzers, detected, c)
  }

  /** When no configuration throws, the references gathered are the union of the contributions. */
  lemma {:induction false} RefsAreContributed(inputs: seq<ConfigInput>, analyzers: seq<AnalyzerResult>,
                                              detected: map<string, Features>, d: Disk, c: Constants)
    requires InitRulesFrom(inputs, analyzers, detected, d, c).fault.None?
    ensures forall j :: 0 <= j < |inputs| ==> inputs[j].path in detected
    ensures InitRulesFrom(inputs, analyzers, detected, d, c).refs == UnionOf(inputs, Contribution(analyzers, detected, c))
  {
    if inputs != [] {
      LastStepCompletes(inputs, analyzers, detected, d, c);
      RefsAreContributed(inputs[..|inputs| - 1], analyzers, detected, d, c);
    }
  }

  /**
   * When no configuration throws, the solution's references are exactly
   * what the configurations contribute: each one's final
   * AdditionalReferences (which end with the recommendation marker) and,
   * with default rules, the references extracted from its project.
   */
  lemma SolutionReferencesExact(inputs: seq<ConfigInput>, analyzers: seq<AnalyzerResult>,
                                detected: map<string, Features>, d: Disk, c: Constants, x: string)
    requires InitRulesFrom(inputs, analyzers, detected, d, c).fault.None?
    ensures x in InitRulesFrom(inputs, analyzers, detected, d, c).refs <==>
      exists j :: 0 <= j < |inputs| && inputs[j].path in detected && x in ConfigReferences(inputs[j], analyzers, detected, c)
  {
    RefsAreContributed(inputs, analyzers, detected, d, c);
    UnionOfHas(inputs, Contribution(analyzers, detected, c), x);
  }

  /** When no configuration throws, the last one completed after all the others did. */
  lemma LastStepCompletes(inputs: seq<ConfigInput>, analyzers: seq<AnalyzerResult>,
                          detected: map<string, Features>, d: Disk, c: Constants)
    requires |inputs| > 0
    requires InitRulesFrom(inputs, analyzers, detected, d, c).fault.None?
    ensures var prev := InitRulesFrom(inputs[..|inputs| - 1], analyzers, detected, d, c);
      && prev.fault.None? && inputs[|inputs| - 1].path in detected
      && InitRulesFrom(inputs, analyzers, detected, d, c).refs
         == prev.refs + ConfigReferences(inputs[|inputs| - 1], analyzers, detected, c)
  {
  }

  /** Every configuration that completes adds the recommendation marker to the solution's references. */
  lemma MarkerInSolutionReferences(inputs: seq<ConfigInput>, analyzers: seq<AnalyzerResult>,
                                   detected: map<string, Features>, d: Disk, c: Constants)
    requires |inputs| > 0
    requires InitRulesFrom(inputs, analyzers, detected, d, c).fault.None?
    ensures c.projectRecommendationFile in InitRulesFrom(inputs, analyzers, detected, d, c).refs
  {
    var final := FinalReferences(inputs[0], GetProjectType(detected[inputs[0].path]), c);
    assert final[|final| - 1] == c.projectRecommendationFile;
    SolutionReferencesExact(inputs, analyzers, detected, d, c, c.projectRecommendationFile);
  }

  /**
   * With the kept configurations and analyzer results, every configuration
   * finds its analyzer result, so InitRules never dereferences null.
   */
  lemma {:induction false} KeptListsNeverNull(inputs: seq<ConfigInput>, analyzers: seq<AnalyzerResult>,
                                              detected: map<string, Features>, d: Disk, c: Constants)
    requires forall j :: 0 <= j < |inputs| ==> FirstWithPath(analyzers, inputs[j].path).Some?
    ensures InitRulesFrom(inputs, analyzers, detected, d, c).fault != Some(NullReference)
  {
    if inputs != [] {
      KeptListsNeverNull(inputs[..|inputs| - 1], analyzers, detected, d, c);
    }
  }

  /** Distinct configurations stay distinct once filtered. */
  lemma KeptDistinct(configs: seq<PortCoreConfiguration>, analyzers: seq<AnalyzerResult>)
    requires forall i, j :: 0 <= i < j < |configs| ==> configs[i] != configs[j]
    ensures var kept := KeptConfigs(configs, analyzers);
      forall i, j :: 0 <= i < j < |kept| ==> kept[i] != kept[j]
  {
    FilterKeepsDistinct(configs, (s: PortCoreConfiguration) => Some(s.ProjectPath) in AnalyzerPaths(analyzers));
  }

  /** A configuration as InitRules leaves it once processed, given its fields before. */
  ghost predicate Processed(s: PortCoreConfiguration, input: ConfigInput, detected: map<string, Features>, c: Constants)
    reads s
  {
    && input.path in detected
    && s.ProjectType == GetProjectType(detected[input.path])
    && s.RulesDir == (if input.useDefaultRules then Some(c.rulesDefaultPath) else input.rulesDir)
    && s.AdditionalReferences == FinalReferences(input, s.ProjectType, c)
  }

  /**
   * A processed configuration's AdditionalReferences keep the entries it
   * had, in order, and end with the recommendation marker.
   */
  lemma ProcessedEndsWithMarker(s: PortCoreConfiguration, input: ConfigInput, detected: map<string, Features>, c: Constants)
    requires Processed(s, input, detected, c)
    ensures |s.AdditionalReferences| > |input.additionalReferences|
    ensures s.AdditionalReferences[..|input.additionalReferences|] == input.additionalReferences
    ensures s.AdditionalReferences[|s.AdditionalReferences| - 1] == c.projectRecommendationFile
  {
    var extra := WCFRules(s.ProjectType, c) + [c.projectRecommendationFile];
    assert s.AdditionalReferences == input.additionalReferences + extra;
  }

  /**
   * The configurations after InitRules stopped at `processed`: those before
   * it are processed, the one it stopped at (if any) keeps its references
   * and carries the rules directory assigned before the exception, and
   * those after it keep their fields.
   */
  ghost predicate ProcessedUpTo(kept: seq<PortCoreConfiguration>, inputs: seq<ConfigInput>, processed: nat,
                                fault: Option<PortError>, detected: map<string, Features>, c: Constants)
    reads set s | s in kept
  {
    && |inputs| == |kept| && processed <= |kept|
    && (forall j :: 0 <= j < processed ==> Processed(kept[j], inputs[j], detected, c))
    && (forall j :: processed < j < |kept| ==> InputOf(kept[j]) == inputs[j])
    && (processed < |kept| ==>
          var s := kept[processed];
          && s.AdditionalReferences == inputs[processed].additionalReferences
          && s.RulesDir == (if fault == Some(NullReference) then Some(c.rulesDefaultPath) else inputs[processed].rulesDir)
          && s.ProjectType == (if inputs[processed].path in detected then GetProjectType(detected[inputs[processed].path])
                               else inputs[processed].projectType))
  }

  /** The configurations once the configuration at `i` has thrown `fault`. */
  lemma StoppedAt(kept: seq<PortCoreConfiguration>, inputs: seq<ConfigInput>, i: nat, fault: PortError,
                  detected: map<string, Features>, c: Constants)
    requires |inputs| == |kept| && i < |kept|
    requires forall j :: 0 <= j < i ==> Processed(kept[j], inputs[j], detected, c)
    requires forall j :: i < j < |kept| ==> InputOf(kept[j]) == inputs[j]
    requires kept[i].AdditionalReferences == inputs[i].additionalReferences
    requires kept[i].RulesDir == (if fault == NullReference then Some(c.rulesDefaultPath) else inputs[i].rulesDir)
    requires kept[i].ProjectType == (if inputs[i].path in detected then GetProjectType(detected[inputs[i].path]) else inputs[i].projectType)
    ensures ProcessedUpTo(kept, inputs, i, Some(fault), detected, c)
  {
  }

  /** The exception a result carries, if any. */
  function ErrorOf<T>(r: Result<T, PortError>): Option<PortError> {
    if r.Failure? then Some(r.error) else None
  }

  /**
   * The solution's result lists and feature map before (`a0`, `r0`, `f0`)
   * and after (`a1`, `r1`, `f1`) one project's results are appended, with
   * the exception that stopped it: a null analysis list changes nothing, a
   * null run list stops after the analysis append, and a project file
   * already keyed stops after both appends.
   */
  ghost predicate Appended(a0: Option<seq<PortProjectResult>>, r0: Option<seq<ProjectResult>>, f0: map<string, Features>,
                           a1: Option<seq<PortProjectResult>>, r1: Option<seq<ProjectResult>>, f1: map<string, Features>,
                           run: ProjectResult, features: Features, fault: Option<PortError>)
  {
    && (a0.None? ==> fault == Some(NullReference) && a1 == None && r1 == r0 && f1 == f0)
    && (a0.Some? ==> a1.Some? && |a1.value| == |a0.value| + 1 && a1.value[..|a0.value|] == a0.value)
    && (a0.Some? && r0.None? ==> fault == Some(NullReference) && r1 == None && f1 == f0)
    && (a0.Some? && r0.Some? ==>
          && r1 == Some(r0.value + [run])
          && (run.projectFile in f0 ==> fault == Some(DuplicateKey(run.projectFile)) && f1 == f0)
          && (run.projectFile !in f0 ==> fault == None && f1 == f0[run.projectFile := features]))
  }

  class SolutionPort {
    const consts: Constants
    const solutionPath: string
    const httpService: Option<Remote>
    /** `_portSolutionResult.References`. */
    var References: set<string>
    /** `_solutionAnalysisResult.ProjectResults`; None when the result is null. */
    var analysisResults: Option<seq<PortProjectResult>>
    /** `_solutionRunResult.ProjectResults`; None when the result is null. */
    var runResults: Option<seq<ProjectResult>>
    /** `_projectTypeFeatureResults`, by project path. */
    var featureResults: map<string, Features>
    var solutionRewriter: Option<SolutionRewriter>
    /** How often the solution rewriter's analysis step has been called. */
    ghost var rewriterAnalyzeCalls: nat

    /**
     * The state the constructor taking an HTTP service sets up: empty
     * analysis and run results, no features, no solution rewriter.
     */
    constructor WithHttpService(c: Constants, path: string, service: Option<Remote>)
      ensures consts == c && solutionPath == path && httpService == service
      ensures References == {} && analysisResults == Some([]) && runResults == Some([])
      ensures featureResults == map[] && solutionRewriter == None && rewriterAnalyzeCalls == 0
    {
      consts, solutionPath, httpService := c, path, service;
      References := {};
      analysisResults, runResults := Some([]), Some([]);
      featureResults := map[];
      solutionRewriter := None;
      rewriterAnalyzeCalls := 0;
    }

    /**
     * The state the constructor taking analyzer results sets up before
     * InitRules: no HTTP service, null analysis and run results, and the
     * solution rewriter built over the analyzer results.
     */
    constructor WithAnalysis(c: Constants, path: string, rewriter: SolutionRewriter)
      ensures consts == c && solutionPath == path && httpService == None
      ensures References == {} && analysisResults == None && runResults == None
      ensures featureResults == map[] && solutionRewriter == Some(rewriter) && rewriterAnalyzeCalls == 0
    {
      consts, solutionPath, httpService := c, path, None;
      References := {};
      analysisResults, runResults := None, None;
      featureResults := map[];
      solutionRewriter := Some(rewriter);
      rewriterAnalyzeCalls := 0;
    }

    /** `new SolutionPort(solutionFilePath, httpService)`: reset the rule cache, then set up the empty results. */
    static method New(c: Constants, path: string, service: Option<Remote>, d: Disk, now: int, outcome: nat -> DeleteOutcome)
      returns (sp: SolutionPort, d': Disk)
      ensures fresh(sp) && sp.consts == c && sp.solutionPath == path && sp.httpService == service
      ensures sp.References == {} && sp.analysisResults == Some([]) && sp.runResults == Some([])
      ensures sp.featureResults == map[] && sp.solutionRewriter == None
      ensures d' == ResetCacheResult(d, c, now, outcome)
    {
      sp := new SolutionPort.WithHttpService(c, path, service);
      d' := ResetCache(d, c, now, outcome);
    }

    /**
     * `new SolutionPort(solutionFilePath, analyzerResults, solutionConfiguration)`:
     * reset the rule cache, run InitRules (whose exception is lost with the
     * task nobody awaits) and keep the solution rewriter.
     */
    static method NewWithAnalysis(c: Constants, path: string, configs: seq<PortCoreConfiguration>,
                                  analyzers: seq<AnalyzerResult>, detected: map<string, Features>,
                                  rewriter: SolutionRewriter, d: Disk, now: int, outcome: nat -> DeleteOutcome)
      returns (sp: SolutionPort, d': Disk)
      requires forall i, j :: 0 <= i < j < |configs| ==> configs[i] != configs[j]
      modifies set s | s in KeptConfigs(configs, analyzers)
      ensures fresh(sp) && sp.consts == c && sp.solutionPath == path && sp.httpService == None
      ensures sp.analysisResults == None && sp.runResults == None
      ensures sp.featureResults == detected && sp.solutionRewriter == Some(rewriter)
      ensures var kept := KeptConfigs(configs, analyzers);
        var st := InitRulesFrom(old(Inputs(kept)), KeptAnalyzers(analyzers, kept), detected, ResetCacheResult(d, c, now, outcome), c);
        && d' == st.disk
        && sp.References == (if st.fault.None? then st.refs else {})
        && ProcessedUpTo(kept, old(Inputs(kept)), st.processed, st.fault, detected, c)
    {
      ghost var inputs := Inputs(KeptConfigs(configs, analyzers));
      sp := new SolutionPort.WithAnalysis(c, path, rewriter);
      assert Inputs(KeptConfigs(configs, analyzers)) == inputs;
      d' := ResetCache(d, c, now, outcome);
      var fault;
      d', fault := sp.InitRules(configs, analyzers, detected, d');
    }

    /** AddWCFReferences: append the WCF rule names of the configuration's project type. */
    method AddWCFReferences(config: PortCoreConfiguration)
      modifies config`AdditionalReferences
      ensures config.AdditionalReferences == old(config.AdditionalReferences) + WCFRules(config.ProjectType, consts)
    {
      var projectType := config.ProjectType;
      if projectType == WCFCodeBasedService || projectType == WCFConfigBasedService || projectType == WCFServiceLibrary {
        config.AdditionalReferences := config.AdditionalReferences + consts.coreWCFRules;
        if projectType == WCFConfigBasedService {
          config.AdditionalReferences := config.AdditionalReferences + [consts.coreWCFConfigBasedProjectRule];
        } else if projectType == WCFCodeBasedService {
          config.AdditionalReferences := config.AdditionalReferences + [consts.coreWCFCodeBasedProjectRule];
        } else if projectType == WCFServiceLibrary {
          config.AdditionalReferences := config.AdditionalReferences + [consts.coreWCFServiceLibraryProjectRule];
        }
      }
      if projectType == WCFClient {
        config.AdditionalReferences := config.AdditionalReferences + [consts.wcfClientProjectRule];
      }
    }

    /**
     * InitRules: keep the configurations and analyzer results whose project
     * paths match, then for each kept configuration in order set its project
     * type, apply its rules directory, append its WCF rules and the
     * recommendation marker, and gather the solution's references. The
     * references are stored only when every configuration completes;
     * `fault` is the exception that stopped it otherwise.
     */
    method InitRules(configs: seq<PortCoreConfiguration>, analyzers: seq<AnalyzerResult>,
                     detected: map<string, Features>, d: Disk)
      returns (d': Disk, fault: Option<PortError>)
      requires forall i, j :: 0 <= i < j < |configs| ==> configs[i] != configs[j]
      modifies this`References, this`featureResults, set s | s in KeptConfigs(configs, analyzers)
      ensures featureResults == detected
      ensures var kept := KeptConfigs(configs, analyzers);
        var st := InitRulesFrom(old(Inputs(kept)), KeptAnalyzers(analyzers, kept), detected, d, consts);
        && d' == st.disk && fault == st.fault
        && References == (if fault.None? then st.refs else old(References))
        && ProcessedUpTo(kept, old(Inputs(kept)), st.processed, fault, detected, consts)
    {
      featureResults := detected;
      var kept := KeptConfigs(configs, analyzers);
      var keptAnalyzers := KeptAnalyzers(analyzers, kept);
      KeptDistinct(configs, analyzers);
      var allReferences;
      d', allReferences, fault := InitKept(kept, Inputs(kept), keptAnalyzers, detected, d);
      if fault.None? {
        References := allReferences;
      }
    }

    /** InitRules' loop over the kept configurations, proved against InitRulesFrom. */
    method InitKept(kept: seq<PortCoreConfiguration>, ghost inputs: seq<ConfigInput>, analyzers: seq<AnalyzerResult>,
                    detected: map<string, Features>, d: Disk)
      returns (d': Disk, refs: set<string>, fault: Option<PortError>)
      requires forall i, j :: 0 <= i < j < |kept| ==> kept[i] != kept[j]
      requires |inputs| == |kept| && forall j :: 0 <= j < |kept| ==> InputOf(kept[j]) == inputs[j]
      modifies set s | s in kept
      ensures var st := InitRulesFrom(inputs, analyzers, detected, d, consts);
        && d' == st.disk && fault == st.fault && (fault.None? ==> refs == st.refs)
        && ProcessedUpTo(kept, inputs, st.processed, fault, detected, consts)
    {
      refs := {};
      d', fault := d, None;
      var i := 0;
      while i < |kept|
        invariant 0 <= i <= |kept|
        invariant InitRulesFrom(inputs[..i], analyzers, detected, d, consts) == InitState(d', refs, i, None)
        invariant forall j :: 0 <= j < i ==> Processed(kept[j], inputs[j], detected, consts)
        invariant forall j :: i <= j < |kept| ==> InputOf(kept[j]) == inputs[j]
        invariant fault.None?
      {
        d', refs, fault := InitStep(kept, inputs, analyzers, detected, d, d', refs, i);
        if fault.Some? {
          return;
        }
        i := i + 1;
      }
      assert inputs[..i] == inputs;
      assert InitRulesFrom(inputs, analyzers, detected, d, consts).processed == |kept|;
    }

    /**
     * One pass of InitKept's loop, at the configuration `i`: either the
     * prefix one longer has been processed, or the configuration threw and
     * InitRules ends in the state InitRulesFrom gives.
     */
    method InitStep(kept: seq<PortCoreConfiguration>, ghost inputs: seq<ConfigInput>, analyzers: seq<AnalyzerResult>,
                    detected: map<string, Features>, ghost d0: Disk, d: Disk, refs: set<string>, i: nat)
      returns (d': Disk, refs': set<string>, fault: Option<PortError>)
      requires forall i, j :: 0 <= i < j < |kept| ==> kept[i] != kept[j]
      requires |inputs| == |kept| && i < |kept|
      requires InitRulesFrom(inputs[..i], analyzers, detected, d0, consts) == InitState(d, refs, i, None)
      requires forall j :: 0 <= j < i ==> Processed(kept[j], inputs[j], detected, consts)
      requires forall j :: i <= j < |kept| ==> InputOf(kept[j]) == inputs[j]
      modifies kept[i]
      ensures fault.None? ==>
        && InitRulesFrom(inputs[..i + 1], analyzers, detected, d0, consts) == InitState(d', refs', i + 1, None)
        && (forall j :: 0 <= j < i + 1 ==> Processed(kept[j], inputs[j], detected, consts))
        && (forall j :: i + 1 <= j < |kept| ==> InputOf(kept[j]) == inputs[j])
      ensures fault.Some? ==>
        var st := InitRulesFrom(inputs, analyzers, detected, d0, consts);
        && d' == st.disk && fault == st.fault
        && ProcessedUpTo(kept, inputs, st.processed, fault, detected, consts)
    {
      NextConfig(inputs, i, analyzers, detected, d0, consts);
      var config := kept[i];
      assert forall j :: 0 <= j < |kept| && j != i ==> kept[j] != config;
      d', refs', fault := InitConfig(config, inputs[i], analyzers, detected, d, refs, i);
      assert forall j :: 0 <= j < i ==> Processed(kept[j], inputs[j], detected, consts);
      assert forall j :: i < j < |kept| ==> InputOf(kept[j]) == inputs[j];
      if fault.Some? {
        FaultStops(inputs, i + 1, analyzers, detected, d0, consts);
        StoppedAt(kept, inputs, i, fault.value, detected, consts);
        assert InitRulesFrom(inputs, analyzers, detected, d0, consts).processed == i;
      }
    }

    /**
     * The body of InitRules' loop for one configuration, proved against
     * ConfigStep; on an exception the configuration keeps what was already
     * assigned to it.
     */
    method InitConfig(config: PortCoreConfiguration, ghost input: ConfigInput, analyzers: seq<AnalyzerResult>,
                      detected: map<string, Features>, d: Disk, refs: set<string>, ghost n: nat)
      returns (d': Disk, refs': set<string>, fault: Option<PortError>)
      requires InputOf(config) == input
      modifies config`ProjectType, config`RulesDir, config`AdditionalReferences
      ensures ConfigStep(InitState(d, refs, n, None), input, analyzers, detected, consts)
        == InitState(d', refs', if fault.None? then n + 1 else n, fault)
      ensures fault.None? ==> Processed(config, input, detected, consts)
      ensures fault.Some? ==>
        && config.AdditionalReferences == input.additionalReferences
        && config.RulesDir == (if fault == Some(NullReference) then Some(consts.rulesDefaultPath) else input.rulesDir)
        && config.ProjectType == (if input.path in detected then GetProjectType(detected[input.path]) else input.projectType)
    {
      d', refs', fault := d, refs, None;
      if config.ProjectPath !in detected {
        fault := Some(KeyNotFound(config.ProjectPath));
        return;
      }
      config.ProjectType := GetProjectType(detected[config.ProjectPath]);
      if config.UseDefaultRules {
        if !IsNullOrEmpty(config.RulesDir) {
          var copied := CopyOverrideRules(d', config.RulesDir.value, consts);
          if copied.Failure? {
            fault := Some(copied.error);
            return;
          }
          d' := copied.value;
        }
        config.RulesDir := Some(consts.rulesDefaultPath);
        var analyzer := FirstWithPath(analyzers, config.ProjectPath);
        if analyzer.None? {
          fault := Some(NullReference);
          return;
        }
        refs' := refs' + GetReferencesForProject(analyzer.value);
      }
      AddWCFReferences(config);
      config.AdditionalReferences := config.AdditionalReferences + [consts.projectRecommendationFile];
      refs' := refs' + set r | r in config.AdditionalReferences;
    }

    // -------------------------------------------------------------------
    // Running one project

    /**
     * RunProject: initialise a ProjectPort for the project, append the
     * recommendation marker to its configuration, take its analysis and run
     * results, add its references to the solution's, and append both
     * results and its features to the solution's records. An exception
     * from initialisation propagates; appending to a null result list or
     * adding a project file already keyed throws after the earlier updates.
     */
    method RunProject(a: AnalyzerResult, config: PortCoreConfiguration, features: Features,
                      engine: RewriteEngine, d: Disk)
      returns (d': Disk, r: Result<ProjectResult, PortError>)
      modifies this`References, this`analysisResults, this`runResults, this`featureResults
      modifies config`ProjectType, config`RulesDir, config`AdditionalReferences
      ensures config.ProjectType == GetProjectType(features)
      ensures var ov := RulesOverride(config.UseDefaultRules, old(config.RulesDir), d, consts);
        && (ov.Failure? ==>
              && r == Failure(ov.error) && d' == d
              && config.RulesDir == old(config.RulesDir)
              && config.AdditionalReferences == old(config.AdditionalReferences)
              && References == old(References) && analysisResults == old(analysisResults)
              && runResults == old(runResults) && featureResults == old(featureResults))
        && (ov.Success? ==>
              config.RulesDir == (if config.UseDefaultRules then Some(consts.rulesDefaultPath) else old(config.RulesDir)))
        && (ov.Success? && engine.analyze(a).AnalysisFailed? ==>
              && r == Failure(RewriterFailed) && d' == ov.value
              && config.AdditionalReferences == old(config.AdditionalReferences)
              && References == old(References) && analysisResults == old(analysisResults)
              && runResults == old(runResults) && featureResults == old(featureResults))
        && (ov.Success? && engine.analyze(a).Analyzed? ==>
              var analysis := engine.analyze(a);
              var refs := ProjectReferencesFor(config.UseDefaultRules, a, consts);
              var names := Candidates(refs);
              var remote := EffectiveRemote(httpService);
              var run := engine.apply(analysis.actions);
              && d'.dirs == ov.value.dirs
              && d'.files == ov.value.files + WrittenFiles(names, ov.value, remote, consts)
              && config.AdditionalReferences == old(config.AdditionalReferences) + [consts.projectRecommendationFile]
              && References == old(References) + refs
              && Appended(old(analysisResults), old(runResults), old(featureResults),
                          analysisResults, runResults, featureResults, run, features, ErrorOf(r))
              && (r.Success? ==> r.value == run)
              && (old(analysisResults).Some? ==>
                    var p := analysisResults.value[|old(analysisResults).value|];
                    && fresh(p) && p.ProjectFile == analysis.projectFile && p.ProjectActions == analysis.actions
                    && p.References == {} && p.DownloadedFiles == MatchedNames(names, ov.value, remote, consts)))
    {
      var projectPort := new ProjectPort(consts);
      var outcome;
      d', outcome := projectPort.CreateInstance(a, config, features, engine, httpService, d);
      if outcome.Fail? {
        return d', Failure(outcome.error);
      }
      r := RecordProject(projectPort, config);
    }

    /**
     * RecordProject: the steps taken once a project's port is initiated.
     * The marker goes onto the configuration's references, the port's
     * analysis result and run result are taken, its references join the
     * solution's, and the results and features are appended.
     */
    method RecordProject(projectPort: ProjectPort, config: PortCoreConfiguration)
      returns (r: Result<ProjectResult, PortError>)
      requires projectPort.portProjectResult != null && projectPort.projectRewriter.Some?
      requires projectPort.ProjectTypeFeatureResults.Some?
      modifies this`References, this`analysisResults, this`runResults, this`featureResults
      modifies config`AdditionalReferences, projectPort`portProjectResult, projectPort`analyzeCalls
      ensures config.AdditionalReferences == old(config.AdditionalReferences) + [consts.projectRecommendationFile]
      ensures References == old(References) + projectPort.ProjectReferences
      ensures projectPort.portProjectResult == old(projectPort.portProjectResult)
      ensures var run := projectPort.projectRewriter.value.engine.apply(projectPort.portProjectResult.ProjectActions);
        && Appended(old(analysisResults), old(runResults), old(featureResults),
                    analysisResults, runResults, featureResults, run,
                    projectPort.ProjectTypeFeatureResults.value, ErrorOf(r))
        && (r.Success? ==> r.value == run)
      ensures old(analysisResults).Some? ==>
        analysisResults.value[|old(analysisResults).value|] == projectPort.portProjectResult
    {
      config.AdditionalReferences := config.AdditionalReferences + [consts.projectRecommendationFile];
      var projectAnalysisResult := projectPort.AnalysisRun();
      var projectResult := projectPort.Run();
      References := References + projectPort.ProjectReferences;
      var fault := AppendProjectResult(projectAnalysisResult.value, projectResult.value, projectPort.ProjectTypeFeatureResults.value);
      r := if fault.Some? then Failure(fault.value) else Success(projectResult.value);
    }

    /**
     * AppendProjectResult: append the analysis result, then the run result,
     * then key the features by the run result's project file. A null list
     * throws a null dereference and a key already present throws, each after
     * the appends before it.
     */
    method AppendProjectResult(analysis: PortProjectResult, run: ProjectResult, features: Features)
      returns (fault: Option<PortError>)
      modifies this`analysisResults, this`runResults, this`featureResults
      ensures Appended(old(analysisResults), old(runResults), old(featureResults),
                       analysisResults, runResults, featureResults, run, features, fault)
      ensures old(analysisResults).Some? ==> analysisResults.value[|old(analysisResults).value|] == analysis
    {
      if analysisResults.None? {
        return Some(NullReference);
      }
      analysisResults := Some(analysisResults.value + [analysis]);
      if runResults.None? {
        return Some(NullReference);
      }
      runResults := Some(runResults.value + [run]);
      var key := run.projectFile;
      if key in featureResults {
        return Some(DuplicateKey(key));
      }
      featureResults := featureResults[key := features];
      return None;
    }

    /**
     * AnalysisRun: the stored analysis results when there are any;
     * otherwise the solution rewriter's analysis, stored.
     */
    method AnalysisRun() returns (r: Result<seq<PortProjectResult>, PortError>)
      modifies this`analysisResults, this`rewriterAnalyzeCalls
      ensures old(analysisResults).Some? ==>
        r == Success(old(analysisResults).value) && analysisResults == old(analysisResults)
        && rewriterAnalyzeCalls == old(rewriterAnalyzeCalls)
      ensures old(analysisResults).None? && solutionRewriter.None? ==>
        r == Failure(NullReference) && analysisResults == None && rewriterAnalyzeCalls == old(rewriterAnalyzeCalls)
      ensures old(analysisResults).None? && solutionRewriter.Some? ==>
        && r == Success(solutionRewriter.value.analysisResults)
        && analysisResults == Some(solutionRewriter.value.analysisResults)
        && rewriterAnalyzeCalls == old(rewriterAnalyzeCalls) + 1
    {
      if analysisResults.Some? {
        return Success(analysisResults.value);
      }
      if solutionRewriter.None? {
        return Failure(NullReference);
      }
      rewriterAnalyzeCalls := rewriterAnalyzeCalls + 1;
      analysisResults := Some(solutionRewriter.value.analysisResults);
      return Success(analysisResults.value);
    }

    // -------------------------------------------------------------------
    // ResetCache and DeleteRecursivelyWithAttempts

    /**
     * DeleteRecursivelyWithAttempts: at most three `Directory.Delete` calls,
     * the k-th with outcome `outcome(k)`. A success or a missing directory
     * ends it; an I/O or access failure leads to the next attempt; any other
     * exception escapes (`escaped`).
     */
    static method DeleteRecursivelyWithAttempts(d: Disk, dir: string, outcome: nat -> DeleteOutcome)
      returns (d': Disk, attempts: nat, escaped: bool)
      ensures 1 <= attempts <= 3
      ensures forall k :: 1 <= k < attempts ==> outcome(k).IOFailure? || outcome(k).AccessDenied?
      ensures attempts < 3 ==> !(outcome(attempts).IOFailure? || outcome(attempts).AccessDenied?)
      ensures escaped <==> outcome(attempts).OtherFailure?
      ensures d' == if outcome(attempts).Deleted? then RemoveDirectory(d, dir) else d
    {
      d', attempts, escaped := d, 0, false;
      var elves := 1;
      while elves <= 3
        invariant 1 <= elves <= 4 && attempts == elves - 1
        invariant forall k :: 1 <= k < elves ==> outcome(k).IOFailure? || outcome(k).AccessDenied?
        invariant d' == d && !escaped
        decreases 4 - elves
      {
        attempts := elves;
        var result := outcome(elves);
        if result.Deleted? {
          return RemoveDirectory(d, dir), attempts, false;
        } else if result.NotFound? {
          return;
        } else if result.OtherFailure? {
          return d, attempts, true;
        }
        // an IOException or UnauthorizedAccessException: try again
        elves := elves + 1;
      }
    }

    /**
     * ResetCache: when the rules directory's creation time plus
     * CacheExpiryHours lies before `now`, delete the directory (if it
     * exists) and create it again. Any exception, including one from the
     * delete or from an out-of-range AddHours, is caught and ends it.
     */
    static method ResetCache(d: Disk, c: Constants, now: int, outcome: nat -> DeleteOutcome) returns (d': Disk)
      ensures d' == ResetCacheResult(d, c, now, outcome)
    {
      var expiry := ExpiryTime(d, c);
      if expiry.None? {
        return d;
      }
      if expiry.value < now {
        d' := d;
        if c.rulesDefaultPath in d.dirs {
          var attempts, escaped;
          d', attempts, escaped := DeleteRecursivelyWithAttempts(d, c.rulesDefaultPath, outcome);
          FirstStopIsAttempts(outcome, attempts);
          if escaped {
            return d;
          }
        }
        d' := CreateDirectory(d', c.rulesDefaultPath, now);
      } else {
        d' := d;
      }
    }
  }

  /**
   * The disk after ResetCache: untouched unless the cache expired; otherwise
   * the directory is deleted when the delete loop stops on a success, the
   * whole reset is abandoned when it stops on another exception, and the
   * directory is then created (a no-op when the delete did not remove it).
   */
  function ResetCacheResult(d: Disk, c: Constants, now: int, outcome: nat -> DeleteOutcome): Disk {
    var dir := c.rulesDefaultPath;
    if !Expired(d, c, now) then d
    else if dir !in d.dirs then CreateDirectory(d, dir, now)
    else
      var stop := outcome(FirstStop(outcome));
      if stop.OtherFailure? then d
      else if stop.Deleted? then CreateDirectory(RemoveDirectory(d, dir), dir, now)
      else CreateDirectory(d, dir, now)
  }

  /** A cache within its lifetime is left exactly as it is. */
  lemma FreshCacheUntouched(d: Disk, c: Constants, now: int, outcome: nat -> DeleteOutcome)
    requires c.rulesDefaultPath in d.dirs
    requires 0 <= c.cacheExpiryHours
    requires d.dirs[c.rulesDefaultPath] + c.cacheExpiryHours * TICKS_PER_HOUR >= now
    ensures ResetCacheResult(d, c, now, outcome) == d
  {
  }

  /** With a 24-hour lifetime, a directory created one hour ago is left as it is. */
  lemma HourOldCacheUntouched(d: Disk, c: Constants, now: int, outcome: nat -> DeleteOutcome)
    requires c.cacheExpiryHours == 24
    requires c.rulesDefaultPath in d.dirs && d.dirs[c.rulesDefaultPath] == now - TICKS_PER_HOUR
    ensures ResetCacheResult(d, c, now, outcome) == d
  {
    FreshCacheUntouched(d, c, now, outcome);
  }

  /**
   * With a 24-hour lifetime, a directory created 40 hours ago whose first
   * delete succeeds exists afterwards, is empty, and is dated now.
   */
  lemma StaleCacheEmptied(d: Disk, c: Constants, now: int, outcome: nat -> DeleteOutcome)
    requires c.cacheExpiryHours == 24
    requires c.rulesDefaultPath in d.dirs && d.dirs[c.rulesDefaultPath] == now - 40 * TICKS_PER_HOUR
    requires 0 <= now - 16 * TICKS_PER_HOUR <= MAX_TICKS
    requires outcome(1).Deleted?
    ensures var r := ResetCacheResult(d, c, now, outcome);
      && c.rulesDefaultPath in r.dirs && r.dirs[c.rulesDefaultPath] == now
      && forall p :: p in r.files ==> p.dir != c.rulesDefaultPath
  {
    assert Expired(d, c, now);
    assert FirstStop(outcome) == 1;
  }

  /**
   * When every delete attempt fails with an I/O or access error the reset
   * gives up silently: the stale directory and its files remain.
   */
  lemma StaleCacheSurvivesFailedDeletes(d: Disk, c: Constants, now: int, outcome: nat -> DeleteOutcome)
    requires c.rulesDefaultPath in d.dirs
    requires forall k :: 1 <= k <= 3 ==> outcome(k).IOFailure? || outcome(k).AccessDenied?
    ensures ResetCacheResult(d, c, now, outcome) == d
  {
    assert outcome(1).IOFailure? || outcome(1).AccessDenied?;
    assert outcome(2).IOFailure? || outcome(2).AccessDenied?;
    assert outcome(3).IOFailure? || outcome(3).AccessDenied?;
  }

  /** A reset that recreated the directory leaves a cache that is fresh at `now`. */
  lemma ResetCacheIsFresh(d: Disk, c: Constants, now: int, outcome: nat -> DeleteOutcome)
    requires 0 <= c.cacheExpiryHours
    requires ResetCacheResult(d, c, now, outcome) != d
    ensures !Expired(ResetCacheResult(d, c, now, outcome), c, now)
  {
  }

  /** The attempt at which the delete loop stops: the first one that is not an I/O or access failure, or the third. */
  function FirstStop(outcome: nat -> DeleteOutcome): (k: nat)
    ensures 1 <= k <= 3
  {
    if !(outcome(1).IOFailure? || outcome(1).AccessDenied?) then 1
    else if !(outcome(2).IOFailure? || outcome(2).AccessDenied?) then 2
    else 3
  }

  /** The attempts DeleteRecursivelyWithAttempts reports are FirstStop's. */
  lemma FirstStopIsAttempts(outcome: nat -> DeleteOutcome, attempts: nat)
    requires 1 <= attempts <= 3
    requires forall k :: 1 <= k < attempts ==> outcome(k).IOFailure? || outcome(k).AccessDenied?
    requires attempts < 3 ==> !(outcome(attempts).IOFailure? || outcome(attempts).AccessDenied?)
    ensures FirstStop(outcome) == attempts
  {
  }
}
