# Deployment-config rollback endpoint, modelled in Dafny

This project models the server side of a deployment-config rollback request:
`REST.Create` of the rollback registry, with its helper `newInvalidError`.
A client posts a `DeploymentConfigRollback` that names a config and a
revision. Create checks the request, reads the config, decides from
`Status.LatestVersion` whether a rollback is possible, and picks the revision
to go back to. It then looks up the replication controller that recorded that
revision, decodes and converts the config stored in it, and merges the
request's `UpdatedAnnotations` into the current config. Both configs then go
to the rollback generator.

Layout:

- `wrappers.dfy`, module `Wrappers`: `Option` (a Go nil) and `Result` (a Go `(value, error)` pair).
- `apps.dfy`, module `Apps`: the API objects (config, rollback request,
  replication controller, runtime object) and the API errors. It also defines
  Go's `int64` as a subset type, with its wrapping decrement.
- `rollback.dfy`, module `RollbackRest`:
  - the collaborators Create calls, as function-valued fields of `Collaborators`;
  - the two read-only stores, as maps keyed by namespace and name;
  - the pure steps `VersionCheck`, `EffectiveRevision`, `MergedAnnotations`, `NewInvalidError`;
  - the whole decision as the function `CreateOutcome`;
  - the imperative `MergeAnnotations` (the `for range` loop) and `Create`
    (the chain of early returns), each proved to compute its function.
- `properties.dfy`, module `RollbackProperties`: what Create promises, as lemmas about `CreateOutcome`.

Behaviour of note:

- There is no upper-bound check on the requested revision. A revision
  above `LatestVersion` goes on to the history lookup.
- A missing or undecodable history record, and a config that cannot be read,
  are not error kinds of their own. Each is an Invalid error with one field
  error on `name`.
- Of the errors Create builds itself, only a failure of the scheme conversion
  is an internal error. An error from the admission callback is returned as
  it is, whatever its kind: a status the other constructors do not name, such as
  Forbidden, is `OtherStatus` with its code and message.

## Model

| member | source | states |
|---|---|---|
| `RollbackRest.NewInvalidError` | pkg/apps/apiserver/registry/rollback/rest.go:119-122 | The error is Invalid, for the rollback's kind and name, with exactly one cause: an invalid value on path `name` carrying the rollback's name and the given reason. |
| `Apps.Decrement` | pkg/apps/apiserver/registry/rollback/rest.go:82 | Go's int64 `- 1`, which is arithmetic modulo 2^64: the result is congruent to `x - 1` modulo 2^64, so it is one less for every value but the least, which wraps to the greatest. |
| `Apps.DecrementIsUnique` | pkg/apps/apiserver/registry/rollback/rest.go:82 | Any `int64` congruent to `x - 1` modulo 2^64 is `Decrement(x)`, so the modular rule alone determines the result. |
| `RollbackRest.CreateOutcome` | pkg/apps/apiserver/registry/rollback/rest.go:51-116 | The decision Create makes, as a pure function of the stores, the namespace, the object and the callback. A missing namespace is always the bad request. A success needs a namespace and a rollback object, and carries that rollback's own spec. The lemmas in `RollbackProperties` state the rest. |
| `RollbackRest.Create` | pkg/apps/apiserver/registry/rollback/rest.go:51-117 | The step-by-step method returns exactly `CreateOutcome`. Every early return and the final generator call agree with the pure decision. It writes neither store. |
| `RollbackRest.VersionCheck` | pkg/apps/apiserver/registry/rollback/rest.go:73-80 | Latest 0 is "undeployed" and latest 1 is "no previous deployment", whatever revision is requested. "Already latest" holds iff latest is neither 0 nor 1 and equals the request. The check passes iff none of these apply. |
| `RollbackRest.EffectiveRevision` | pkg/apps/apiserver/registry/rollback/rest.go:82-85 | A positive request is used as it is. Otherwise the revision is latest - 1, wrapping to the greatest `int64` as Go does when latest is the least one. |
| `RollbackRest.MergedAnnotations` | pkg/apps/apiserver/registry/rollback/rest.go:104-109 | Every updated key takes the request's value and every other existing key keeps its value. The result's keys are the union. A nil map stays nil exactly when there are no updates, and an allocated map stays allocated. |
| `RollbackRest.MergeAnnotations` | pkg/apps/apiserver/registry/rollback/rest.go:104-109 | The allocate-then-assign loop over the updates, in any iteration order, yields `MergedAnnotations`. |
| `RollbackProperties.MissingNamespaceComesFirst` | pkg/apps/apiserver/registry/rollback/rest.go:52-55 | Without a namespace the result is the "namespace required" bad request, whatever the object, the callback and the stores. |
| `RollbackProperties.WrongObjectTypeComesSecond` | pkg/apps/apiserver/registry/rollback/rest.go:56-59 | With a namespace, an object that is not a rollback gets the "not a rollback spec" bad request, whatever the rest. |
| `RollbackProperties.ValidationComesThird` | pkg/apps/apiserver/registry/rollback/rest.go:61-63 | Validator field errors become one Invalid error holding exactly those errors, before the callback or any store is consulted. |
| `RollbackProperties.CreateValidationComesFourth` | pkg/apps/apiserver/registry/rollback/rest.go:64-66 | After validation passes, the callback's error, of whatever kind, is returned unchanged, before any store is read. |
| `RollbackProperties.ConfigReadComesFifth` | pkg/apps/apiserver/registry/rollback/rest.go:68-71 | A config missing from the store gives the "cannot get deployment config" Invalid error, whatever the history store holds. |
| `RollbackProperties.UndeployedConfigIsRefused` | pkg/apps/apiserver/registry/rollback/rest.go:73-75 | Latest version 0 gives "cannot rollback an undeployed config" for every requested revision. |
| `RollbackProperties.SingleDeploymentIsRefused` | pkg/apps/apiserver/registry/rollback/rest.go:76-77 | Latest version 1 gives "no previous deployment", carrying the config's label, for every requested revision including 1. |
| `RollbackProperties.LatestRevisionIsRefused` | pkg/apps/apiserver/registry/rollback/rest.go:78-80 | With latest at least 2, requesting the latest gives "version N is already the latest" with N the request. The result is the same for every history store, so no lookup happens. |
| `RollbackProperties.LookupUsesEffectiveRevision` | pkg/apps/apiserver/registry/rollback/rest.go:82-92 | Past the version checks, Create continues with the history lookup of the effective revision: the request if positive, else latest - 1. |
| `RollbackProperties.EffectiveRevisionIsNotLatest` | pkg/apps/apiserver/registry/rollback/rest.go:73-85 | When the checks pass, the revision looked up is never the latest. For a non-positive request and latest at least 2, it lies in [1, latest). |
| `RollbackProperties.RevisionAboveLatestIsLookedUp` | pkg/apps/apiserver/registry/rollback/rest.go:82-89 | A request above the latest version is not refused. Create looks that revision up. |
| `RollbackProperties.MissingTargetDeploymentIsInvalid` | pkg/apps/apiserver/registry/rollback/rest.go:88-92 | A history record missing under the derived name gives an Invalid error. The result is the same for every decoder and converter, so neither runs and the generator is not reached. |
| `RollbackProperties.UndecodableTargetIsInvalid` | pkg/apps/apiserver/registry/rollback/rest.go:94-97 | A record that does not decode gives an Invalid error carrying the cause, whatever the converter does. |
| `RollbackProperties.ConversionFailureIsInternal` | pkg/apps/apiserver/registry/rollback/rest.go:99-114 | Once the record decodes, the only failures left are conversion failures. They are internal errors, never Invalid. A failure converting the target is reported before the source is converted. |
| `RollbackProperties.GeneratorReceivesMergedSource` | pkg/apps/apiserver/registry/rollback/rest.go:99-116 | When both conversions succeed, the generator gets three things: the converted source carrying the merged annotations, the converted target, and the request's spec. |
| `RollbackProperties.GeneratorOnlyAfterEveryCheck` | pkg/apps/apiserver/registry/rollback/rest.go:51-116 | A successful Create means every step passed: namespace, object type, validation, callback, config read, version checks, and a decodable record under the effective revision. It also means the generator got the request's own spec. |
| `RollbackProperties.InvalidErrorsNameOneField` | pkg/apps/apiserver/registry/rollback/rest.go:68-122 | Past validation and the callback, every failure is an Invalid error or an internal conversion error. This includes a negative latest version equal to the request. Every such Invalid error is one Create builds with `newInvalidError`: it names the rollback's kind and name and has exactly one field error: an invalid value on path `name` carrying the rollback's name. |
| `RollbackProperties.AnnotationMergeOverridesAndAdds` | pkg/apps/apiserver/registry/rollback/rest.go:104-109 | Updating {"a": "1"} with {"a": "2", "b": "3"} gives {"a": "2", "b": "3"}. |
| `RollbackProperties.PreviousOfFiveIsFour` | pkg/apps/apiserver/registry/rollback/rest.go:82-89 | Latest 5 with requested revision 0 looks up revision 4. |
| `RollbackProperties.ThreeOfThreeIsAlreadyLatest` | pkg/apps/apiserver/registry/rollback/rest.go:78-80 | Latest 3 with requested revision 3 is refused as already the latest. |

## Left out

- Namespace extraction from the request context is an `Option<string>` input. The runtime type assertion is the `Object` datatype. Both are framework plumbing.
- These library functions have no visible body. Each is an arbitrary total function in `Collaborators` (or the `createValidation` parameter). Every property holds whatever they compute, within the hypotheses each lemma states about them (`InvalidErrorsNameOneField`, for one, assumes the callback accepts the object):
  - `validation.ValidateDeploymentConfigRollback`;
  - the `createValidation` callback;
  - `appsutil.LabelForDeploymentConfig`;
  - `appsutil.DeploymentNameForConfigVersion`;
  - `appsserialization.DecodeDeploymentConfig`;
  - `legacyscheme.Scheme.Convert`.
- The two clients and their network `Get` calls are lookups in immutable maps keyed by namespace and name. Every kind of Get failure (not found, network, forbidden) is the key's absence.
- `GenerateRollback` and its field-by-field merge (template, replication meta, strategy, triggers) are not in the modelled source. Create's successful result is the generator's input, a `GeneratorCall`, not its output. The parts of a config the generator merges are one opaque `ConfigSpec`.
- Error messages are not reproduced as text. Errors carry their kind, plus the parts the Go message embeds that this core knows: the config name, the label, the revision, the decode or conversion cause. The fetch errors' text (`%v` of the Get error, `err.Error()`) is not kept.
- `apps.Kind` is a group and a kind. Only the kind, `DeploymentConfigRollback`, is kept.
- `from.Annotations` is changed in place on the object the Get returned, which is a private copy. The model updates a local value. No caller can observe aliasing, so none is modelled.
- Go ranges over a map in random order. `MergeAnnotations` picks each next key arbitrarily and is proved correct for every order.
- `NewREST` and `New` are trivial constructors and are not modelled.
