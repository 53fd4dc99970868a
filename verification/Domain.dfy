/** The analysis records shared by listing, statistics, recommendations and the
    asynchronous pipeline. Times are integers (nanoseconds). */
module Domain {

  type Instant = int

  datatype Option<+T> = None | Some(value: T)

  datatype Severity = NoSeverity | Info | Low | Medium | High | Critical | UnknownSeverity(name: string)

  datatype Confidence = NoConfidence | LowConfidence | MediumConfidence | HighConfidence | UnknownConfidence(name: string)

  datatype Evidence = Evidence(id: string, signal: string, service: string, provider: string, summary: string)

  datatype RootCause = RootCause(cause: string, evidence: seq<string>, confidence: Confidence)

  datatype Recommendation = Recommendation(action: string, rationale: string, priority: int, evidenceIds: seq<string>)

  datatype AnalysisRequest = AnalysisRequest(goal: string, affectedServices: seq<string>, signals: seq<string>)

  datatype AnalysisResult = AnalysisResult(
    id: string,
    traceId: string,
    summary: string,
    severity: Severity,
    confidence: Confidence,
    affectedServices: seq<string>,
    evidence: seq<Evidence>,
    detectedAnomalies: seq<string>,
    possibleRootCauses: seq<RootCause>,
    recommendedActions: seq<Recommendation>,
    codeLevelInsights: seq<string>,
    missingEvidence: seq<string>,
    createdAt: Instant)

  datatype AnalysisContext = AnalysisContext(
    analysisId: string,
    summary: string,
    severity: Severity,
    confidence: Confidence,
    affectedServices: seq<string>,
    evidence: seq<Evidence>,
    detectedAnomalies: seq<string>,
    possibleRootCauses: seq<RootCause>,
    recommendedActions: seq<Recommendation>,
    codeLevelInsights: seq<string>,
    missingEvidence: seq<string>,
    analysisCompletedAt: Instant)

  /** The compact state a chat works from: everything but the trace id. */
  function NewAnalysisContext(r: AnalysisResult): AnalysisContext {
    AnalysisContext(r.id, r.summary, r.severity, r.confidence, r.affectedServices, r.evidence,
                    r.detectedAnomalies, r.possibleRootCauses, r.recommendedActions,
                    r.codeLevelInsights, r.missingEvidence, r.createdAt)
  }

  /** A context loses nothing of an analysis but its trace id. */
  lemma ContextLosesTraceIdOnly(a: AnalysisResult, b: AnalysisResult)
    ensures NewAnalysisContext(a) == NewAnalysisContext(b) <==> a == b.(traceId := a.traceId)
    ensures var c := NewAnalysisContext(a);
            && c.analysisId == a.id && c.summary == a.summary && c.severity == a.severity && c.confidence == a.confidence
            && c.affectedServices == a.affectedServices && c.evidence == a.evidence
            && c.detectedAnomalies == a.detectedAnomalies && c.possibleRootCauses == a.possibleRootCauses
            && c.recommendedActions == a.recommendedActions && c.codeLevelInsights == a.codeLevelInsights
            && c.missingEvidence == a.missingEvidence && c.analysisCompletedAt == a.createdAt
  {
  }

  /** Unset and unknown severities rank with the lowest. */
  function SeverityRank(s: Severity): int {
    match s
    case Low => 1
    case Medium => 2
    case High => 3
    case Critical => 4
    case _ => 0
  }

  function ConfidenceRank(c: Confidence): int {
    match c
    case LowConfidence => 1
    case MediumConfidence => 2
    case HighConfidence => 3
    case _ => 0
  }
}
