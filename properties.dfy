/**
 * What `REST.Create` promises, stated as lemmas about `CreateOutcome`
 * (which `Create` is proved to compute).
 */
module RollbackProperties {
  import opened Wrappers
  import opened Apps
  import opened RollbackRest

  /** The request gets past validation, admission and the read of its config. */
  ghost predicate ReadsConfig<Internal>(rest: Rest<Internal>, namespace: string, rollback: DeploymentConfigRollback,
                                        createValidation: CreateValidation)
  {
    && rest.lib.validate(rollback) == []
    && createValidation(RollbackObject(rollback)) == None
    && ObjectKey(namespace, rollback.name) in rest.configs
  }

  /** The config the request rolls back, once it has been read. */
  ghost function Current<Internal>(rest: Rest<Internal>, namespace: string, rollback: DeploymentConfigRollback): DeploymentConfig
    requires ObjectKey(namespace, rollback.name) in rest.configs
  {
    rest.configs[ObjectKey(namespace, rollback.name)]
  }

  /** The request also passes the version checks and so reaches the history lookup. */
  ghost predicate ReachesLookup<Internal>(rest: Rest<Internal>, namespace: string, rollback: DeploymentConfigRollback,
                                          createValidation: CreateValidation)
  {
    && ReadsConfig(rest, namespace, rollback, createValidation)
    && VersionCheck(Current(rest, namespace, rollback).latestVersion, rollback.spec.revision,
                    rest.lib.labelFor(Current(rest, namespace, rollback))) == None
  }

  // ---- Precedence: each failure comes before, and prevents, every later step.

  /** A request context without a namespace is refused whatever else holds. */
  lemma MissingNamespaceComesFirst<Internal>(rest: Rest<Internal>, obj: Object, createValidation: CreateValidation)
    ensures CreateOutcome(rest, None, obj, createValidation) == Failure(BadRequest(NamespaceRequired))
  {
  }

  /** With a namespace, an object that is not a rollback is refused before anything is validated. */
  lemma WrongObjectTypeComesSecond<Internal>(rest: Rest<Internal>, namespace: string, description: string,
                                             createValidation: CreateValidation)
    ensures CreateOutcome(rest, Some(namespace), OtherObject(description), createValidation)
         == Failure(BadRequest(NotARollbackSpec(description)))
  {
  }

  /** Field errors from the validator are reported as they are, whatever the callback and the stores say. */
  lemma ValidationComesThird<Internal>(rest: Rest<Internal>, namespace: string, rollback: DeploymentConfigRollback,
                                       createValidation: CreateValidation)
    requires |rest.lib.validate(rollback)| > 0
    ensures CreateOutcome(rest, Some(namespace), RollbackObject(rollback), createValidation)
         == Failure(Invalid(RollbackKind, rollback.name, rest.lib.validate(rollback)))
  {
  }

  /** A refusal by the admission callback is returned unchanged, before either store is read. */
  lemma CreateValidationComesFourth<Internal>(rest: Rest<Internal>, namespace: string, rollback: DeploymentConfigRollback,
                                              createValidation: CreateValidation, refusal: StatusError)
    requires rest.lib.validate(rollback) == []
    requires createValidation(RollbackObject(rollback)) == Some(refusal)
    ensures CreateOutcome(rest, Some(namespace), RollbackObject(rollback), createValidation) == Failure(refusal)
  {
  }

  /** A config that cannot be read is an Invalid error, whatever the history store holds. */
  lemma ConfigReadComesFifth<Internal>(rest: Rest<Internal>, namespace: string, rollback: DeploymentConfigRollback,
                                       createValidation: CreateValidation)
    requires rest.lib.validate(rollback) == []
    requires createValidation(RollbackObject(rollback)) == None
    requires ObjectKey(namespace, rollback.name) !in rest.configs
    ensures CreateOutcome(rest, Some(namespace), RollbackObject(rollback), createValidation)
         == Failure(NewInvalidError(rollback, CannotGetConfig(rollback.name)))
  {
  }

  // ---- The version checks.

  /** A config that was never deployed cannot be rolled back, whatever revision is asked for. */
  lemma UndeployedConfigIsRefused<Internal>(rest: Rest<Internal>, namespace: string, rollback: DeploymentConfigRollback,
                                            createValidation: CreateValidation)
    requires ReadsConfig(rest, namespace, rollback, createValidation)
    requires Current(rest, namespace, rollback).latestVersion == 0
    ensures CreateOutcome(rest, Some(namespace), RollbackObject(rollback), createValidation)
         == Failure(NewInvalidError(rollback, Undeployed))
  {
  }

  /**
   * A config deployed once has no earlier deployment, whatever revision is
   * asked for; a request for revision 1 gets this error too, not "already latest".
   */
  lemma SingleDeploymentIsRefused<Internal>(rest: Rest<Internal>, namespace: string, rollback: DeploymentConfigRollback,
                                            createValidation: CreateValidation)
    requires ReadsConfig(rest, namespace, rollback, createValidation)
    requires Current(rest, namespace, rollback).latestVersion == 1
    ensures CreateOutcome(rest, Some(namespace), RollbackObject(rollback), createValidation)
         == Failure(NewInvalidError(rollback, NoPreviousDeployment(rest.lib.labelFor(Current(rest, namespace, rollback)))))
  {
  }

  /**
   * Asking for the latest version is refused, and the answer does not
   * depend on the history store: no history lookup happens.
   */
  lemma LatestRevisionIsRefused<Internal>(rest: Rest<Internal>, namespace: string, rollback: DeploymentConfigRollback,
                                          createValidation: CreateValidation,
                                          otherControllers: map<ObjectKey, ReplicationController>)
    requires ReadsConfig(rest, namespace, rollback, createValidation)
    requires Current(rest, namespace, rollback).latestVersion >= 2
    requires rollback.spec.revision == Current(rest, namespace, rollback).latestVersion
    ensures CreateOutcome(rest, Some(namespace), RollbackObject(rollback), createValidation)
         == CreateOutcome(rest.(controllers := otherControllers), Some(namespace), RollbackObject(rollback), createValidation)
         == Failure(NewInvalidError(rollback, AlreadyLatest(rollback.spec.revision)))
  {
  }

  // ---- The revision rolled back to.

  /**
   * Past the version checks, Create looks up the effective revision: the
   * requested one if positive, else the one before the latest.
   */
  lemma LookupUsesEffectiveRevision<Internal>(rest: Rest<Internal>, namespace: string, rollback: DeploymentConfigRollback,
                                              createValidation: CreateValidation)
    requires ReachesLookup(rest, namespace, rollback, createValidation)
    ensures var from := Current(rest, namespace, rollback);
      CreateOutcome(rest, Some(namespace), RollbackObject(rollback), createValidation)
      == RollbackTo(rest, namespace, rollback, from, EffectiveRevision(from.latestVersion, rollback.spec.revision))
  {
  }

  /** Whenever the version checks pass, the revision rolled back to differs from the latest one. */
  lemma EffectiveRevisionIsNotLatest(latest: int64, requested: int64, configLabel: string)
    requires VersionCheck(latest, requested, configLabel) == None
    ensures EffectiveRevision(latest, requested) != latest
    ensures requested <= 0 && latest >= 2 ==> 1 <= EffectiveRevision(latest, requested) < latest
  {
  }

  /** There is no upper bound: a revision above the latest goes on to the history lookup. */
  lemma RevisionAboveLatestIsLookedUp<Internal>(rest: Rest<Internal>, namespace: string, rollback: DeploymentConfigRollback,
                                                createValidation: CreateValidation)
    requires ReadsConfig(rest, namespace, rollback, createValidation)
    requires Current(rest, namespace, rollback).latestVersion >= 2
    requires rollback.spec.revision > Current(rest, namespace, rollback).latestVersion
    ensures CreateOutcome(rest, Some(namespace), RollbackObject(rollback), createValidation)
         == RollbackTo(rest, namespace, rollback, Current(rest, namespace, rollback), rollback.spec.revision)
  {
  }

  // ---- The history lookup, decoding and conversion.

  /** A missing target controller is an Invalid error; the decoder, the scheme and the generator are never used. */
  lemma MissingTargetDeploymentIsInvalid<Internal>(rest: Rest<Internal>, namespace: string,
                                                   rollback: DeploymentConfigRollback, from: DeploymentConfig, revision: int64,
                                                   otherDecode: ReplicationController -> Result<DeploymentConfig, string>,
                                                   otherConvert: DeploymentConfig -> Result<Internal, string>)
    requires TargetKey(rest, namespace, from, revision) !in rest.controllers
    ensures RollbackTo(rest, namespace, rollback, from, revision)
         == RollbackTo(rest.(lib := rest.lib.(decode := otherDecode, convert := otherConvert)), namespace, rollback, from, revision)
         == Failure(NewInvalidError(rollback, TargetDeploymentUnavailable))
  {
  }

  /** A target controller that does not decode is an Invalid error carrying the cause; the scheme is never used. */
  lemma UndecodableTargetIsInvalid<Internal>(rest: Rest<Internal>, namespace: string,
                                             rollback: DeploymentConfigRollback, from: DeploymentConfig, revision: int64,
                                             cause: string, otherConvert: DeploymentConfig -> Result<Internal, string>)
    requires TargetKey(rest, namespace, from, revision) in rest.controllers
    requires rest.lib.decode(rest.controllers[TargetKey(rest, namespace, from, revision)]) == Failure(cause)
    ensures RollbackTo(rest, namespace, rollback, from, revision)
         == RollbackTo(rest.(lib := rest.lib.(convert := otherConvert)), namespace, rollback, from, revision)
         == Failure(NewInvalidError(rollback, CannotDecode(cause)))
  {
  }

  /**
   * Once the target has decoded, Create fails only when the scheme cannot
   * convert one of the two configs, and then with an internal error, never an
   * Invalid one.
   */
  lemma ConversionFailureIsInternal<Internal>(rest: Rest<Internal>, namespace: string,
                                              rollback: DeploymentConfigRollback, from: DeploymentConfig, revision: int64,
                                              to: DeploymentConfig)
    requires TargetKey(rest, namespace, from, revision) in rest.controllers
    requires rest.lib.decode(rest.controllers[TargetKey(rest, namespace, from, revision)]) == Success(to)
    ensures var r := RollbackTo(rest, namespace, rollback, from, revision);
      r.Failure? ==> r.error.InternalError?
    ensures rest.lib.convert(to).Failure? ==>
      RollbackTo(rest, namespace, rollback, from, revision) == Failure(InternalError(rest.lib.convert(to).error))
  {
  }

  /**
   * When every step succeeds the generator receives the converted target,
   * the converted source with the merged annotations and the request's spec.
   */
  lemma GeneratorReceivesMergedSource<Internal>(rest: Rest<Internal>, namespace: string,
                                                rollback: DeploymentConfigRollback, from: DeploymentConfig, revision: int64,
                                                to: DeploymentConfig, toInternal: Internal, fromInternal: Internal)
    requires TargetKey(rest, namespace, from, revision) in rest.controllers
    requires rest.lib.decode(rest.controllers[TargetKey(rest, namespace, from, revision)]) == Success(to)
    requires rest.lib.convert(to) == Success(toInternal)
    requires rest.lib.convert(from.(annotations := MergedAnnotations(from.annotations, rollback.updatedAnnotations)))
          == Success(fromInternal)
    ensures RollbackTo(rest, namespace, rollback, from, revision)
         == Success(GeneratorCall(fromInternal, toInternal, rollback.spec))
  {
  }

  /** Create reaches the generator only when every check has passed. */
  lemma GeneratorOnlyAfterEveryCheck<Internal>(rest: Rest<Internal>, namespace: Option<string>, obj: Object,
                                               createValidation: CreateValidation)
    requires CreateOutcome(rest, namespace, obj, createValidation).Success?
    ensures namespace.Some? && obj.RollbackObject?
    ensures ReachesLookup(rest, namespace.value, obj.rollback, createValidation)
    ensures var from := Current(rest, namespace.value, obj.rollback);
      var key := TargetKey(rest, namespace.value, from, EffectiveRevision(from.latestVersion, obj.rollback.spec.revision));
      key in rest.controllers && rest.lib.decode(rest.controllers[key]).Success?
    ensures CreateOutcome(rest, namespace, obj, createValidation).value.spec == obj.rollback.spec
  {
  }

  // ---- The shape of the user-facing errors.

  /**
   * Past validation and the admission callback, every Invalid error Create
   * returns is one it builds itself: reported against the rollback's kind and
   * name with exactly one field error, an invalid value on the path `name`
   * carrying the rollback's name. (An error from the callback is returned as
   * it is and may have any shape.)
   */
  lemma InvalidErrorsNameOneField<Internal>(rest: Rest<Internal>, namespace: string, rollback: DeploymentConfigRollback,
                                            createValidation: CreateValidation)
    requires rest.lib.validate(rollback) == []
    requires createValidation(RollbackObject(rollback)) == None
    ensures var r := CreateOutcome(rest, Some(namespace), RollbackObject(rollback), createValidation);
      r.Failure? && r.error.Invalid? ==>
        && r.error.kind == RollbackKind
        && r.error.name == rollback.name
        && |r.error.causes| == 1
        && r.error.causes[0].errorType == FieldValueInvalid
        && r.error.causes[0].field == NameField
        && r.error.causes[0].badValue == rollback.name
    ensures var r := CreateOutcome(rest, Some(namespace), RollbackObject(rollback), createValidation);
      r.Failure? ==> r.error.Invalid? || r.error.InternalError?
  {
  }

  // ---- The annotation merge on a concrete map.

  /** Updating {"a": "1"} with {"a": "2", "b": "3"} gives {"a": "2", "b": "3"}. */
  lemma AnnotationMergeOverridesAndAdds()
    ensures MergedAnnotations(Some(map["a" := "1"]), map["a" := "2", "b" := "3"]) == Some(map["a" := "2", "b" := "3"])
  {
    var updates := map["a" := "2", "b" := "3"];
    assert map["a" := "1"] + updates == updates;
  }

  // ---- End-to-end scenarios.

  /** Latest version 5 and requested revision 0: revision 4 is looked up. */
  lemma PreviousOfFiveIsFour<Internal>(rest: Rest<Internal>, namespace: string, rollback: DeploymentConfigRollback,
                                       createValidation: CreateValidation)
    requires ReadsConfig(rest, namespace, rollback, createValidation)
    requires Current(rest, namespace, rollback).latestVersion == 5
    requires rollback.spec.revision == 0
    ensures CreateOutcome(rest, Some(namespace), RollbackObject(rollback), createValidation)
         == RollbackTo(rest, namespace, rollback, Current(rest, namespace, rollback), 4)
  {
  }

  /** Latest version 3 and requested revision 3: already the latest. */
  lemma ThreeOfThreeIsAlreadyLatest<Internal>(rest: Rest<Internal>, namespace: string, rollback: DeploymentConfigRollback,
                                              createValidation: CreateValidation)
    requires ReadsConfig(rest, namespace, rollback, createValidation)
    requires Current(rest, namespace, rollback).latestVersion == 3
    requires rollback.spec.revision == 3
    ensures CreateOutcome(rest, Some(namespace), RollbackObject(rollback), createValidation)
         == Failure(NewInvalidError(rollback, AlreadyLatest(3)))
  {
  }
}
