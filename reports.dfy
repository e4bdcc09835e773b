/**
 * Critic reports (src/models/critique_report.py, src/models/fact_check_report.py)
 * and the placeholder reports with a bare `issues` list that the retry
 * policies import (src/agents/critics.py). Fractions are reals.
 */
module Reports {
  import opened Wrappers

  datatype BloomCoverageReport = BloomCoverageReport(levelCounts: map<string, nat>, missingLevels: seq<string>, coverageScore: real)

  datatype ActivityDiversityReport = ActivityDiversityReport(typePercentages: map<string, real>, isBalanced: bool, dominantType: Option<string>)

  datatype CognitiveLoadReport = CognitiveLoadReport(totalDuration: int, overloadedSegments: seq<string>)

  /** The pedagogy critic's report; its `issues` are its recommendations. */
  datatype CritiqueReport = CritiqueReport(
    bloom: BloomCoverageReport,
    diversity: ActivityDiversityReport,
    cognitiveLoad: CognitiveLoadReport,
    recommendations: seq<string>)

  datatype SentenceProbability = SentenceProbability(lineNumber: int, sentence: string, probability: real)

  datatype ClaimFlag = ClaimFlag(lineNumber: int, snippet: string)

  /** The fact checker's report; its `issues` are both lists together. */
  datatype FactCheckReport = FactCheckReport(
    hallucinations: seq<SentenceProbability>,
    unsupportedClaims: seq<ClaimFlag>,
    hallucinationCount: int,
    unsupportedClaimsCount: int)

  /** `CritiqueReport | FactCheckReport`, as the regenerator accepts it. */
  datatype Review = Critique(critique: CritiqueReport) | FactCheck(factCheck: FactCheckReport)

  /** The critic placeholders of src/agents/critics.py: only a list of issues. */
  datatype IssueReport = IssueReport(issues: seq<string>)
}
