/**
 * The rollback endpoint of the deployment-config API: `REST.Create` decides
 * whether a rollback of a config to an earlier revision can be generated,
 * fetches and decodes that revision, merges the request's annotations into
 * the current config and hands both documents to the rollback generator.
 */
module RollbackRest {
  import opened Wrappers
  import opened Apps

  /**
   * The library code Create calls but whose bodies are not part of this
   * model, each as an arbitrary total function.
   * `Internal` is the internal (unversioned) config type that the scheme
   * converts into.
   */
  datatype Collaborators<Internal> = Collaborators(
    /** `validation.ValidateDeploymentConfigRollback`: the request's field errors. */
    validate: DeploymentConfigRollback -> seq<FieldError>,
    /** `appsutil.LabelForDeploymentConfig`. */
    labelFor: DeploymentConfig -> string,
    /** `appsutil.DeploymentNameForConfigVersion`: the controller name of one revision. */
    deploymentName: (string, int64) -> string,
    /** `appsserialization.DecodeDeploymentConfig`: the config a controller encodes. */
    decode: ReplicationController -> Result<DeploymentConfig, string>,
    /** `legacyscheme.Scheme.Convert` from the versioned to the internal config. */
    convert: DeploymentConfig -> Result<Internal, string>)

  /**
   * The REST storage: what its two clients can read (deployment configs and
   * replication controllers, by namespace and name) and the collaborators.
   */
  datatype Rest<Internal> = Rest(
    configs: map<ObjectKey, DeploymentConfig>,
    controllers: map<ObjectKey, ReplicationController>,
    lib: Collaborators<Internal>)

  /** What Create hands to `GenerateRollback`: the current and the target config, and the request's spec. */
  datatype GeneratorCall<Internal> = GeneratorCall(from: Internal, to: Internal, spec: RollbackSpec)

  /** `createValidation`: the admission callback, which may refuse the object with any API error. */
  type CreateValidation = Object -> Option<StatusError>

  /**
   * `newInvalidError`: an Invalid error for the rollback, with one
   * field error on `name` that carries the rollback's name and the reason.
   */
  function NewInvalidError(rollback: DeploymentConfigRollback, reason: Reason): (e: StatusError)
    ensures e.Invalid? && e.kind == RollbackKind && e.name == rollback.name
    ensures e.causes == [FieldError(FieldValueInvalid, NameField, rollback.name, reason)]
  {
    Invalid(RollbackKind, rollback.name, [FieldError(FieldValueInvalid, NameField, rollback.name, reason)])
  }

  /**
   * The switch on `Status.LatestVersion`: its arms are tried in order, so
   * 0 and 1 are refused before a request for the latest version is.
   */
  function VersionCheck(latest: int64, requested: int64, configLabel: string): (r: Option<Reason>)
    ensures latest == 0 ==> r == Some(Undeployed)
    ensures latest == 1 ==> r == Some(NoPreviousDeployment(configLabel))
    ensures r == Some(AlreadyLatest(requested)) <==> latest != 0 && latest != 1 && requested == latest
    ensures r == None <==> latest != 0 && latest != 1 && requested != latest
  {
    if latest == 0 then Some(Undeployed)
    else if latest == 1 then Some(NoPreviousDeployment(configLabel))
    else if latest == requested then Some(AlreadyLatest(requested))
    else None
  }

  /**
   * The revision Create rolls back to: the requested one when it is
   * positive, else the one before the latest (Go's wrapping `- 1`).
   */
  function EffectiveRevision(latest: int64, requested: int64): (revision: int64)
    ensures requested > 0 ==> revision == requested
    ensures requested <= 0 && latest > MinInt64 ==> revision == latest - 1
    ensures requested <= 0 && latest == MinInt64 ==> revision == MaxInt64
  {
    if requested > 0 then requested else Decrement(latest)
  }

  /** The annotations before the merge, with a nil map read as empty. */
  function AnnotationsOrEmpty(annotations: Annotations): map<string, string>
  {
    annotations.GetOr(map[])
  }

  /**
   * The source config's annotations after the request's updates: every
   * updated key takes the request's value, every other key keeps its own;
   * a nil map is allocated only when there is something to write.
   */
  function MergedAnnotations(annotations: Annotations, updates: map<string, string>): (r: Annotations)
    ensures r == None <==> annotations == None && |updates| == 0
    ensures annotations.Some? ==> r.Some?
    ensures r.Some? ==> r.value.Keys == AnnotationsOrEmpty(annotations).Keys + updates.Keys
    ensures r.Some? ==> forall k :: k in updates ==> r.value[k] == updates[k]
    ensures r.Some? ==> forall k :: k in AnnotationsOrEmpty(annotations) && k !in updates ==>
      r.value[k] == AnnotationsOrEmpty(annotations)[k]
  {
    if annotations == None && |updates| == 0 then None
    else Some(AnnotationsOrEmpty(annotations) + updates)
  }

  /** Where the controller of one revision of `from` is stored. */
  function TargetKey<Internal>(rest: Rest<Internal>, namespace: string, from: DeploymentConfig, revision: int64): ObjectKey
  {
    ObjectKey(namespace, rest.lib.deploymentName(from.name, revision))
  }

  /**
   * Create from the history lookup on: a missing target controller or one
   * that does not decode is an Invalid error, a failed conversion an
   * internal error.
   */
  function RollbackTo<Internal>(rest: Rest<Internal>, namespace: string, rollback: DeploymentConfigRollback,
                                from: DeploymentConfig, revision: int64): Result<GeneratorCall<Internal>, StatusError>
  {
    var key := TargetKey(rest, namespace, from, revision);
    if key !in rest.controllers then Failure(NewInvalidError(rollback, TargetDeploymentUnavailable))
    else match rest.lib.decode(rest.controllers[key])
      case Failure(cause) => Failure(NewInvalidError(rollback, CannotDecode(cause)))
      case Success(to) =>
        match rest.lib.convert(to)
        case Failure(cause) => Failure(InternalError(cause))
        case Success(toInternal) =>
          var merged := from.(annotations := MergedAnnotations(from.annotations, rollback.updatedAnnotations));
          match rest.lib.convert(merged)
          case Failure(cause) => Failure(InternalError(cause))
          case Success(fromInternal) => Success(GeneratorCall(fromInternal, toInternal, rollback.spec))
  }

  /** Create past the config read: the version checks, then the history lookup. */
  function RollbackFrom<Internal>(rest: Rest<Internal>, namespace: string, rollback: DeploymentConfigRollback,
                                  from: DeploymentConfig): Result<GeneratorCall<Internal>, StatusError>
  {
    match VersionCheck(from.latestVersion, rollback.spec.revision, rest.lib.labelFor(from))
    case Some(reason) => Failure(NewInvalidError(rollback, reason))
    case None => RollbackTo(rest, namespace, rollback, from, EffectiveRevision(from.latestVersion, rollback.spec.revision))
  }

  /**
   * What Create returns for a namespace taken from the request context
   * (None when it has none), the posted object and the admission callback.
   */
  function CreateOutcome<Internal>(rest: Rest<Internal>, namespace: Option<string>, obj: Object,
                                   createValidation: CreateValidation): (r: Result<GeneratorCall<Internal>, StatusError>)
    ensures namespace == None ==> r == Failure(BadRequest(NamespaceRequired))
    ensures r.Success? ==> namespace.Some? && obj.RollbackObject? && r.value.spec == obj.rollback.spec
  {
    if namespace == None then Failure(BadRequest(NamespaceRequired))
    else if !obj.RollbackObject? then Failure(BadRequest(NotARollbackSpec(obj.description)))
    else
      var rollback := obj.rollback;
      var errs := rest.lib.validate(rollback);
      if |errs| > 0 then Failure(Invalid(RollbackKind, rollback.name, errs))
      else if createValidation(obj).Some? then Failure(createValidation(obj).value)
      else
        var key := ObjectKey(namespace.value, rollback.name);
        if key !in rest.configs then Failure(NewInvalidError(rollback, CannotGetConfig(rollback.name)))
        else RollbackFrom(rest, namespace.value, rollback, rest.configs[key])
  }

  /**
   * The annotation merge, done in place: allocate the map if it is
   * nil and there are updates, then write each update over it, in whatever
   * order the map is ranged over.
   */
  method MergeAnnotations(annotations: Annotations, updates: map<string, string>) returns (merged: Annotations)
    ensures merged == MergedAnnotations(annotations, updates)
  {
    merged := annotations;
    if annotations == None && |updates| > 0 {
      merged := Some(map[]);
    }
    var pending := updates.Keys;
    while pending != {}
      invariant pending <= updates.Keys
      invariant merged == None <==> annotations == None && |updates| == 0
      invariant merged.Some? ==> merged.value.Keys == AnnotationsOrEmpty(annotations).Keys + (updates.Keys - pending)
      invariant merged.Some? ==> forall k :: k in updates && k !in pending ==> merged.value[k] == updates[k]
      invariant merged.Some? ==> forall k :: k in AnnotationsOrEmpty(annotations) && (k !in updates || k in pending) ==>
        merged.value[k] == AnnotationsOrEmpty(annotations)[k]
      decreases pending
    {
      var key :| key in pending;
      merged := Some(merged.value[key := updates[key]]);
      pending := pending - {key};
    }
    if merged.Some? {
      assert merged.value == AnnotationsOrEmpty(annotations) + updates;
    }
  }

  /**
   * `REST.Create`: a chain of checks, each returning early with its error,
   * ending in the call to the rollback generator. It reads the two stores
   * and writes neither.
   */
  method Create<Internal>(rest: Rest<Internal>, namespace: Option<string>, obj: Object,
                          createValidation: CreateValidation) returns (r: Result<GeneratorCall<Internal>, StatusError>)
    ensures r == CreateOutcome(rest, namespace, obj, createValidation)
  {
    if namespace == None {
      return Failure(BadRequest(NamespaceRequired));
    }
    if !obj.RollbackObject? {
      return Failure(BadRequest(NotARollbackSpec(obj.description)));
    }
    var rollback := obj.rollback;

    var errs := rest.lib.validate(rollback);
    if |errs| > 0 {
      return Failure(Invalid(RollbackKind, rollback.name, errs));
    }
    var admission := createValidation(obj);
    if admission.Some? {
      return Failure(admission.value);
    }

    var configKey := ObjectKey(namespace.value, rollback.name);
    if configKey !in rest.configs {
      return Failure(NewInvalidError(rollback, CannotGetConfig(rollback.name)));
    }
    var from := rest.configs[configKey];

    var refusal := VersionCheck(from.latestVersion, rollback.spec.revision, rest.lib.labelFor(from));
    if refusal.Some? {
      return Failure(NewInvalidError(rollback, refusal.value));
    }

    var revision := Decrement(from.latestVersion);
    if rollback.spec.revision > 0 {
      revision := rollback.spec.revision;
    }

    // Find the target deployment and decode its config.
    var targetKey := ObjectKey(namespace.value, rest.lib.deploymentName(from.name, revision));
    if targetKey !in rest.controllers {
      return Failure(NewInvalidError(rollback, TargetDeploymentUnavailable));
    }
    var to := rest.lib.decode(rest.controllers[targetKey]);
    if to.Failure? {
      return Failure(NewInvalidError(rollback, CannotDecode(to.error)));
    }
    var toInternal := rest.lib.convert(to.value);
    if toInternal.Failure? {
      return Failure(InternalError(toInternal.error));
    }

    var annotations := MergeAnnotations(from.annotations, rollback.updatedAnnotations);
    from := from.(annotations := annotations);

    var fromInternal := rest.lib.convert(from);
    if fromInternal.Failure? {
      return Failure(InternalError(fromInternal.error));
    }
    return Success(GeneratorCall(fromInternal.value, toInternal.value, rollback.spec));
  }
}
