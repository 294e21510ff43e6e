/**
 * The values of CTA.Rules.Config.Constants and CTA.Rules.PortCore.WCF.Constants
 * that the orchestrator reads. Their source files are not part of this model,
 * so the values are a parameter; only the .NET clock bounds are fixed here.
 */
module Config {

  datatype Constants = Constants(
    rulesDefaultPath: string,
    projectRecommendationFile: string,
    recommendationsBucketUrl: string,
    cacheExpiryHours: int,
    coreWCFRules: seq<string>,
    coreWCFConfigBasedProjectRule: string,
    coreWCFCodeBasedProjectRule: string,
    coreWCFServiceLibraryProjectRule: string,
    wcfClientProjectRule: string)
  {
    /** The four project-specific WCF rule names differ from each other and from the core WCF rules. */
    predicate DistinctWCFRuleNames() {
      && coreWCFConfigBasedProjectRule != coreWCFCodeBasedProjectRule
      && coreWCFConfigBasedProjectRule != coreWCFServiceLibraryProjectRule
      && coreWCFConfigBasedProjectRule != wcfClientProjectRule
      && coreWCFCodeBasedProjectRule != coreWCFServiceLibraryProjectRule
      && coreWCFCodeBasedProjectRule != wcfClientProjectRule
      && coreWCFServiceLibraryProjectRule != wcfClientProjectRule
      && coreWCFConfigBasedProjectRule !in coreWCFRules
      && coreWCFCodeBasedProjectRule !in coreWCFRules
      && coreWCFServiceLibraryProjectRule !in coreWCFRules
      && wcfClientProjectRule !in coreWCFRules
    }
  }

  /** One hour in .NET ticks of 100 ns. */
  const TICKS_PER_HOUR: int := 36_000_000_000

  /** `DateTime.MaxValue.Ticks`; `DateTime.AddHours` throws beyond it or below zero. */
  const MAX_TICKS: int := 3_155_378_975_999_999_999

  /** `Directory.GetCreationTime` of a missing path: midnight, 1 January 1601. */
  const MISSING_PATH_CREATION_TIME: int := 504_911_232_000_000_000
}
