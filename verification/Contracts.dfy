/** The typed wire contracts and table rows of src/m2harness/models.py that the durable workflow uses. */
module Contracts {
  import opened Wrappers

  /** `str(uuid)`. */
  type Uuid = string

  datatype QuestionState =
    | Pending | Modeling | ReadyForCoding | Coding | ReadyForReview | Reviewing
    | RevisionRequired | Approved | Finalizing | Completed | Failed

  datatype Stage = ModelingStage | CodingStage | ReviewStage | FinalizeStage

  datatype Status = StatusPending | Running | Succeeded | StatusFailed

  /** `ProducedArtifact`: an output file before it is stored. `base64` content is `text == None`. */
  datatype Produced = Produced(logicalName: string, kind: string, mediaType: string, text: Option<string>)

  datatype Output =
    | ModelingOutput(requiredValidations: seq<string>)
    | CodingOutput(executionSucceeded: bool, validations: map<string, bool>)
    | ReviewOutput(approve: bool)
    | FinalizeOutput
  {
    function Stage(): Stage {
      match this
      case ModelingOutput(_) => ModelingStage
      case CodingOutput(_, _) => CodingStage
      case ReviewOutput(_) => ReviewStage
      case FinalizeOutput => FinalizeStage
    }
  }

  /** `ActivityResponse`, with the two executor metadata entries the evidence gate reads. */
  datatype Response = Response(
    output: Output,
    claims: seq<string>,
    produced: seq<Produced>,
    provider: Option<string>,
    backend: Option<string>)

  datatype Question = Question(
    projectId: Uuid, key: string, title: string,
    state: QuestionState, problemArtifactId: Uuid, revision: int,
    failureReason: Option<string>, version: nat,
    leaseOwner: Option<string>, leaseExpires: Option<string>)

  datatype Activity = Activity(
    projectId: Uuid, questionId: Uuid, stage: Stage, revision: int,
    status: Status, attempts: nat,
    request: Option<string>, result: Option<Response>, error: Option<string>,
    worker: Option<string>, leaseExpires: Option<string>, createdAt: string)

  datatype Artifact = Artifact(
    id: Uuid, projectId: Uuid, questionId: Option<Uuid>, activityId: Option<Uuid>,
    kind: string, mediaType: string, sha256: string, sizeBytes: int)

  datatype ClaimEvidence = ClaimEvidence(
    projectId: Uuid, questionId: Uuid, activityId: Uuid, revision: int,
    index: nat, claim: string, evidence: set<Uuid>)

  /** The typed payloads of the store's audit events. */
  datatype EventBody =
    | ProjectCreated(name: string)
    | QuestionCreated(key: string, title: string, problemArtifactId: Uuid)
    | ArtifactRegistered(artifactId: Uuid, kind: string, mediaType: string, sha256: string, sizeBytes: int)
    | LeaseAcquired(workerId: string, expiresAt: string)
    | LeaseReleased(workerId: string)
    | Transitioned(from: QuestionState, to: QuestionState, revision: int, failureReason: Option<string>)
    | ActivityCreated(stage: Stage, revision: int, idempotencyKey: string)
    | ActivityClaimed(workerId: string, attempt: int, expiresAt: string)
    | ActivitySucceeded(artifactIds: seq<Uuid>)
    | ActivityFailed(error: string)

  datatype Event = Event(projectId: Uuid, questionId: Option<Uuid>, activityId: Option<Uuid>, body: EventBody)
}
