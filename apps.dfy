/**
 * The API objects that a deployment-config rollback reads and produces:
 * the rollback request, the deployment config, the replication controller
 * that records one past deployment, and the structured API errors.
 */
module Apps {
  import opened Wrappers

  const MinInt64: int := -0x8000_0000_0000_0000
  const MaxInt64: int := 0x7fff_ffff_ffff_ffff

  /** Go's `int64`, the type of revisions and of `Status.LatestVersion`. */
  type int64 = x: int | MinInt64 <= x <= MaxInt64

  /** Go's signed 64-bit arithmetic is modulo 2^64. */
  const TwoTo64: int := 0x1_0000_0000_0000_0000

  /** The 64-bit two's complement `x - 1` of Go: the least value wraps to the greatest. */
  function Decrement(x: int64): (r: int64)
    ensures (x - 1 - r) % TwoTo64 == 0
    ensures x > MinInt64 ==> r == x - 1
    ensures x == MinInt64 ==> r == MaxInt64
  {
    if x == MinInt64 then MaxInt64 else x - 1
  }

  /** Only one `int64` is congruent to `x - 1` modulo 2^64, so `Decrement` is Go's `x - 1`. */
  lemma DecrementIsUnique(x: int64, r: int64)
    requires (x - 1 - r) % TwoTo64 == 0
    ensures r == Decrement(x)
  {
  }

  /** A string-to-string map that Go can leave nil (None) or allocate (Some). */
  type Annotations = Option<map<string, string>>

  /** How an object is addressed in a store: its namespace and its name. */
  datatype ObjectKey = ObjectKey(namespace: string, name: string)

  /**
   * The part of a deployment config this core never looks at (template,
   * replicas, selector, strategy, triggers); it is only carried along.
   */
  datatype ConfigSpec = ConfigSpec(fields: map<string, string>)

  /** A deployment config: metadata, the opaque spec and `Status.LatestVersion`. */
  datatype DeploymentConfig = DeploymentConfig(
    name: string,
    namespace: string,
    annotations: Annotations,
    spec: ConfigSpec,
    latestVersion: int64)

  /** `DeploymentConfigRollbackSpec`: what to roll back to and which parts to restore. */
  datatype RollbackSpec = RollbackSpec(
    from: string,
    revision: int64,
    includeTriggers: bool,
    includeTemplate: bool,
    includeReplicationMeta: bool,
    includeStrategy: bool)

  /** `DeploymentConfigRollback`: the object a client posts to the rollback endpoint. */
  datatype DeploymentConfigRollback = DeploymentConfigRollback(
    name: string,
    updatedAnnotations: map<string, string>,
    spec: RollbackSpec)

  /**
   * The replication controller made for one deployment of a config; it
   * holds that revision of the config in encoded form.
   */
  datatype ReplicationController = ReplicationController(
    name: string,
    namespace: string,
    annotations: map<string, string>)

  /** The `runtime.Object` handed to Create: a rollback, or any other kind of object. */
  datatype Object = RollbackObject(rollback: DeploymentConfigRollback) | OtherObject(description: string)

  /** Why one of Create's own Invalid errors was raised; the text of each Go message is not modelled. */
  datatype Reason =
    | CannotGetConfig(configName: string)
    | Undeployed
    | NoPreviousDeployment(configLabel: string)
    | AlreadyLatest(version: int64)
    | TargetDeploymentUnavailable
    | CannotDecode(cause: string)
    | ExternalReason(message: string)

  /** A `field.Error`; Create builds only `ErrorTypeInvalid` ones, the validator may return others. */
  datatype FieldErrorType = FieldValueInvalid | OtherFieldErrorType(description: string)

  datatype FieldError = FieldError(errorType: FieldErrorType, field: string, badValue: string, reason: Reason)

  datatype BadRequestReason = NamespaceRequired | NotARollbackSpec(object: string)

  /** The API errors Create can return. */
  datatype StatusError =
    | BadRequest(badRequest: BadRequestReason)
    | Invalid(kind: string, name: string, causes: seq<FieldError>)
    | InternalError(cause: string)
    /** Any other API status (Forbidden, Conflict, ...), as an admission callback may return. */
    | OtherStatus(code: int, message: string)

  /** The kind every Invalid error of the rollback endpoint is reported against. */
  const RollbackKind: string := "DeploymentConfigRollback"

  /** The field path `name` that Create's own Invalid errors point at. */
  const NameField: string := "name"
}
