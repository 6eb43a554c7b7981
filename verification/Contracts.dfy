/**
  The records of packages/domain/src/contracts.ts that the belief pipeline reads, and the deterministic ids it makes.

  SHA-256 over an injective encoding is modelled as an injective constructor: a digest id is the tuple it was made from.
 */
module Contracts {
  import opened Wrappers

  datatype Id =
    | Given(name: string)
    | PredictionOf(hypothesisId: Id, templateKey: string, templatesVersion: string)
    | RuleAssessmentOf(predictionId: Id, evidenceId: Id)
    | TestOf(tool: string, request: map<string, string>, routesVersion: string)
    | TrialOf(runId: string, testId: string, attempt: nat)
    | EvidenceOf(trialId: Id, payloadFingerprint: string)

  datatype Window = PreOnset | DuringIncident | Recovery
  datatype LogClass = ErrorLog | TimeoutLog | ActivityLog
  datatype SignalKind = ErrorRate | Latency | ConnectionPool | WorkerSaturation | DependencyHealth
  datatype SignalState = Normal | Elevated | AtLimit
  datatype Presence = Present | Absent
  datatype Coverage = Complete | Partial
  datatype Strength = High | Medium | Low

  datatype ExpectedObservation =
    | ExpectDeployment(subject: string, window: Window, presence: Presence)
    | ExpectLogClass(subject: string, window: Window, logClass: LogClass, presence: Presence)
    | ExpectSignal(subject: string, window: Window, signal: SignalKind, state: SignalState)

  datatype ObservedFact =
    | ObservedDeployment(subject: string, window: Window, count: nat, coverage: Coverage)
    | ObservedLogClass(subject: string, window: Window, logClass: LogClass, count: nat, coverage: Coverage)
    | ObservedSignal(subject: string, window: Window, signal: SignalKind, state: SignalState)

  datatype PredictionStatus = Untested | Confirmed | Refuted | Untestable

  datatype Prediction = Prediction(
    id: Id, hypothesisId: Id, statement: string, expectedIfTrue: seq<ExpectedObservation>,
    expectedIfFalse: seq<ExpectedObservation>, status: PredictionStatus)

  /** observedAt is the instant its text parses to, None when it does not parse; observation is its facts, if any. */
  datatype Evidence = Evidence(
    id: Id, observedAt: Option<int>, reliability: Option<Strength>, observation: Option<seq<ObservedFact>>)

  datatype Effect = Supports | Contradicts | Neutral
  datatype Producer = Rule | Llm

  /** What a rule verdict rests on, the variable part of an assessment's rationale. */
  datatype Rationale = FalseCaseHeld | OppositeOfExpected | EveryExpectationHeld | ModelText(text: string)

  datatype Assessment = Assessment(
    id: Id, evidenceId: Id, hypothesisId: Id, predictionId: Option<Id>, effect: Effect, strength: Strength,
    rationale: Rationale, producedBy: Producer, at: int)

  datatype Cause = Cause(component: string, mechanism: string)
  datatype Hypothesis = Hypothesis(id: Id, cause: Option<Cause>)

  const SUBJECT_MAX := 200

  /** SubjectSchema. */
  predicate ValidSubject(subject: string) {
    1 <= |subject| <= SUBJECT_MAX
  }

  function PredictionId(p: Prediction): Id { p.id }
  function EvidenceId(e: Evidence): Id { e.id }
  function AssessmentId(a: Assessment): Id { a.id }
  function HypothesisId(h: Hypothesis): Id { h.id }

  /** A zero count proves absence only under complete coverage; a signal says nothing about presence. */
  function ObservedPresence(fact: ObservedFact): Option<Presence> {
    if fact.ObservedSignal? then None
    else if fact.count > 0 then Some(Present)
    else if fact.coverage.Complete? then Some(Absent)
    else None
  }
}
