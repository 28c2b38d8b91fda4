# Laravel entity services, modelled in Dafny

This project models the core of `saritasa/laravel-entity-services`: the
`EntityServiceFactory`, which hands out one service per Eloquent model
class, and the default `EntityService`, which validates input and runs
create, update and delete inside a database transaction, dispatching an
entity event for each.

- `results.dfy` — `Option` and `Result`.
- `throwables.dfy` — class names the code refers to and a `Throwable`
  value (class, message, code).
- `entity_service.dfy` — module `EntityServices`:
  - pure specifications of validate, getValidationRulesForAttributes,
    the three closures, handleTransaction, create, update and delete,
    each as the calls made to the collaborators (the effect trace) and
    the outcome;
  - lemmas about these specifications;
  - a class `EntityService` whose methods do the same work step by step,
    append to a `trace` field, and are proved equal to the
    specifications while keeping every transaction they open closed
    (`Balanced`).
- `entity_service_factory.dfy` — module `EntityServiceFactories`:
  - register, buildEntityService and build as functions over the two
    tables (`registeredServices`, `sharedInstances`);
  - lemmas about single calls and about whole sessions of register and
    build calls;
  - a class `EntityServiceFactory` whose methods update those two tables
    in place and are proved against the functions.

What the collaborators answer is a parameter of each call, so every
branch of the code can be reached. The collaborators are the validator,
the database connection, the repository, the event dispatcher, the
repository factory and the DI container. `is_subclass_of` is an abstract
relation. Entities are values: a class, a nullable key and an attribute
map.

Behaviour of the code that the model keeps:

- **Events fire inside the transaction.** The event is dispatched before
  `commit()`. A commit that throws therefore rolls back an operation
  whose event has already been dispatched
  (`CreateCommitFailureAfterDispatch` and its update and delete
  counterparts). Only a throwing dispatcher or commit can do this: a
  failure anywhere earlier dispatches nothing
  (`FailureAfterDispatchIsLate`).
- **A throwing `rollBack()` escapes unwrapped** (`Escaped`).
- **Errors inside the transaction are wrapped.** Any other throwable
  inside `handleTransaction`, including a failing `beginTransaction()`,
  becomes an operation error with the same message, code 500 and the
  cause as previous.
- **`update` validates only the given fields.** It validates against the
  model rules restricted to the fields present in the params. When no
  field has a rule, the rule set is empty; it never falls back to the
  full set, because `??` only replaces a null rule set.
- **`delete` reads the key before the repository call.** A null key makes
  the `EntityDeletedEvent` constructor throw a `TypeError` after the
  repository's delete, and the transaction is rolled back.
- **`build` never replaces a cached service.** A later `register` for the
  same model class does not change what `build` returns
  (`OneInstancePerModelClass`). The interface documents `register` as
  registering a custom service "to serve model class"
  (src/Contracts/IEntityServiceFactory.php:27), but once a service is
  cached, `build` returns it (src/Services/EntityServiceFactory.php:68-71)
  and the registered class is never made; the model follows the code.
- **`build` wraps only `RepositoryException`.** Only `RepositoryException`
  and its subclasses become an `EntityServiceException`. Every other
  throwable propagates unchanged. A failed build caches nothing.

## Model

| member | source | states |
|---|---|---|
| EntityServices.EntityService.constructor | src/Services/EntityService.php:78-92 | the service keeps the model class, repository and validator it is given, and has made no call yet |
| EntityServices.EntityService.GetRepository | src/Services/EntityService.php:198-201 | returns exactly the repository injected at construction |
| EntityServices.RulesForAttributes | src/Services/EntityService.php:124-128 | the rules are the custom rules, or the model's when the custom set is empty, restricted to exactly the fields present in the params, with their values unchanged |
| EntityServices.ValidateFallsBackOnlyWhenMissing | src/Services/EntityService.php:185-191 | validate calls the validator once with the given rules, falls back to the model rules only when none are given, and fails exactly when the validator rejects |
| EntityServices.EntityService.Validate | src/Services/EntityService.php:185-191 | appends exactly that one validator call to the trace and returns its outcome; transactions stay balanced |
| EntityServices.Fill | src/Services/EntityService.php:110 | filling keeps the entity's class and key; every given attribute overwrites, every other attribute is kept |
| EntityServices.EntityService.RunCallback | src/Services/EntityService.php:98-150 | each closure makes exactly the calls and returns exactly the value or throwable its specification gives |
| EntityServices.CallbackShape | src/Services/EntityService.php:98-150 | the closures never touch the connection; the first call is the closure's repository create (of a new model-class entity from the params), save (of the filled entity) or delete (of the given entity); the second, made exactly when that call returned (and, for delete, the key was set), dispatches the created, updated or deleted event for that entity |
| EntityServices.AnnouncedModelClass | src/Events/EntityEvent.php:34-38 | a created or updated event records the class of the entity it carries; a deleted event records the service's model class |
| EntityServices.EntityService.RollBackWith | src/Services/EntityService.php:169-171 | the catch block makes one rollBack call and throws an operation error (same message, 500, cause as previous), or what rollBack threw |
| EntityServices.EntityService.HandleTransaction | src/Services/EntityService.php:162-173 | begin, closure, commit, or rollback on any throwable: the trace grows by exactly the specified calls and the trace stays balanced |
| EntityServices.TransactionBalanced | src/Services/EntityService.php:162-173 | the transaction begins first and every transaction opened is closed by a commit or a rollback |
| EntityServices.TransactionCommits | src/Services/EntityService.php:164-168 | success exactly when begin, the closure and commit all return; then one commit and the closure's value is returned |
| EntityServices.TransactionRollsBack | src/Services/EntityService.php:164-172 | on any failure: exactly one rollBack, as the last call, nothing committed, and the error is the wrapped cause (or rollBack's own throwable) |
| EntityServices.BalancedAppend | src/Services/EntityService.php:162-173 | operations run one after another keep the connection balanced |
| EntityServices.BracketBalanced | src/Services/EntityService.php:164-171 | a begin, connection-free calls and a commit or rollback form a balanced trace |
| EntityServices.EntityService.Create | src/Services/EntityService.php:95-103 | create makes exactly the calls of its specification and returns its entity or error |
| EntityServices.CreateRejectsInvalidParams | src/Services/EntityService.php:95-97 | params failing the model rules give a validation error and no other call |
| EntityServices.CreateStoresThenAnnounces | src/Services/EntityService.php:95-103 | success exactly when validation and every collaborator pass; a new model-class entity built from the params is stored, the stored entity is announced and returned |
| EntityServices.CreateRepositoryFailure | src/Services/EntityService.php:98-102 | a throwing repository create: the trace is validation, begin, the create of the new entity and a rollback; no event is dispatched; the operation error is chained to the repository's throwable |
| EntityServices.CreateCommitFailureAfterDispatch | src/Services/EntityService.php:98-102 | a commit that throws after the created event was dispatched still rolls back, and create fails with an operation error chained to the commit's throwable |
| EntityServices.CreateBalanced | src/Services/EntityService.php:95-103 | create leaves every transaction it opens closed, whatever the collaborators answer |
| EntityServices.EntityService.Update | src/Services/EntityService.php:106-114 | update makes exactly the calls of its specification and returns its entity or error |
| EntityServices.UpdateValidatesGivenFields | src/Services/EntityService.php:106-108 | update validates the params against the model rules of exactly the given fields (empty when none has a rule); a failed validation is the only call |
| EntityServices.UpdateSavesFilledEntity | src/Services/EntityService.php:106-114 | success exactly when validation and every collaborator pass; the filled entity is saved, announced and returned |
| EntityServices.UpdateRepositoryFailure | src/Services/EntityService.php:109-113 | a throwing repository save: validation, begin, the save of the filled entity and a rollback; no event; operation error chained to the save's throwable |
| EntityServices.UpdateCommitFailureAfterDispatch | src/Services/EntityService.php:109-113 | a commit that throws after the updated event was dispatched rolls back, and update fails with an operation error chained to it |
| EntityServices.UpdateBalanced | src/Services/EntityService.php:106-114 | update leaves every transaction it opens closed |
| EntityServices.EntityService.Delete | src/Services/EntityService.php:143-151 | delete makes exactly the calls of its specification and reports its error, if any |
| EntityServices.DeleteAnnouncesCapturedKey | src/Services/EntityService.php:135-151 | a throwing guard hook stops delete before any call; success exactly when all collaborators pass and the key is set; the event carries the service's model class and the key |
| EntityServices.DeleteWithoutKeyRollsBack | src/Services/EntityService.php:146-150 | a null key: the repository delete runs, the event constructor's TypeError rolls the transaction back and comes back wrapped |
| EntityServices.DeleteRepositoryFailure | src/Services/EntityService.php:146-150 | a throwing repository delete: begin, the delete and a rollback; no event; operation error chained to the delete's throwable |
| EntityServices.DeleteCommitFailureAfterDispatch | src/Services/EntityService.php:146-150 | a commit that throws after the deleted event was dispatched rolls back, and delete fails with an operation error chained to it |
| EntityServices.OnlyLateFailuresDispatch | src/Services/EntityService.php:162-173 | when the dispatcher and the commit both return, a failed transaction has dispatched no event |
| EntityServices.FailureAfterDispatchIsLate | src/Services/EntityService.php:95-151 | create, update or delete can fail after dispatching an event only when the dispatcher or the commit threw |
| EntityServices.DeleteBalanced | src/Services/EntityService.php:143-151 | delete leaves every transaction it opens closed |
| EntityServiceFactories.EntityServiceFactory.constructor | src/Services/EntityServiceFactory.php:33-59 | a new factory has no registrations, no cached services and has made no call |
| EntityServiceFactories.EntityServiceFactory.Register | src/Services/EntityServiceFactory.php:106-115 | register returns the check's error or sets the one registry entry; the cache and the call record are unchanged; the tables stay valid |
| EntityServiceFactories.RegisterGuardsEntry | src/Services/EntityServiceFactory.php:106-115 | register fails exactly when the model class does not extend Model or the service class does not implement IEntityService, with the matching message and no change; otherwise only that entry is set |
| EntityServiceFactories.RegisterRejectsModelItself | src/Services/EntityServiceFactory.php:108-110 | Model itself cannot be registered, since is_subclass_of is strict |
| EntityServiceFactories.CatchRepositoryException | src/Services/EntityServiceFactory.php:100-102 | exactly RepositoryException and its subclasses are wrapped, keeping message, code and the cause; anything else propagates unchanged |
| EntityServiceFactories.EntityServiceFactory.MakeService | src/Services/EntityServiceFactory.php:88-102 | one container call, returning the made service or the caught error |
| EntityServiceFactories.EntityServiceFactory.BuildEntityService | src/Services/EntityServiceFactory.php:84-103 | makes exactly the calls and returns exactly the result of its specification |
| EntityServiceFactories.EntityServiceFactory.Build | src/Services/EntityServiceFactory.php:66-72 | returns the cached service or builds and caches a new one; a failure caches nothing; the tables stay valid |
| EntityServiceFactories.BuildTwiceReturnsSameInstance | src/Services/EntityServiceFactory.php:66-72 | a second build of the same class returns the identical service without calling anything |
| EntityServiceFactories.BuildMakesRegisteredClass | src/Services/EntityServiceFactory.php:87-88 | an uncached registered class: only the registered class is made, with no repository lookup |
| EntityServiceFactories.BuildMakesDefaultService | src/Services/EntityServiceFactory.php:91-99 | an uncached unregistered class: its repository is looked up and the default EntityService is made bound to that class and repository |
| EntityServiceFactories.FailedBuildIsNotCached | src/Services/EntityServiceFactory.php:66-103 | a failed build leaves both tables unchanged and returns the caught error of the failing call |
| EntityServiceFactories.RegisterKeepsTablesValid | src/Services/EntityServiceFactory.php:106-115 | register keeps every registry entry checked and every cached service fitting its model class |
| EntityServiceFactories.BuildKeepsTablesValid | src/Services/EntityServiceFactory.php:66-103 | build keeps every registry entry checked and every cached service fitting its model class |
| EntityServiceFactories.CacheEntryIsStable | src/Services/EntityServiceFactory.php:66-72 | no sequence of register and build calls replaces or evicts a cached service |
| EntityServiceFactories.OneInstancePerModelClass | src/Services/EntityServiceFactory.php:66-72 | after a successful build, every later build of that class returns the identical service, even after a new registration |
| EntityServiceFactories.SessionKeepsTablesValid | src/Services/EntityServiceFactory.php:66-115 | any sequence of register and build calls keeps the tables valid |

## Left out

- The Laravel runtime is not modelled: the DI container, Eloquent, the
  validator factory, the database connection and the event dispatcher.
  For the connection's begin, commit and rollBack, the repository's
  create, save and delete, the dispatcher, the `checkBeforeDelete` hook,
  the repository factory and the container, what each returns or throws
  during a call is a parameter of that call.
- Some calls cannot throw in the model, though they can in PHP. Their
  failure paths are therefore not modelled:
  - `validatorFactory->make` and `fails()` are a fixed predicate.
  - `getModelValidationRules()` is a constant of the repository. In PHP a
    throw there escapes create or update unwrapped, before any
    transaction.
  - `new $this->modelClass($modelParams)` in the create closure always
    builds the entity. In PHP a throw there, such as a mass-assignment
    exception, rolls back before any repository call. That trace is not
    produced by the model, and `CallbackShape` and
    `CreateStoresThenAnnounces` rule it out.
  - `$model->getKey()` always returns the entity's key.
- The `TypeError` raised for a null key carries a stand-in message
  (`NullIdMessage`). PHP's real text names the fully qualified class and
  the call site and differs between PHP versions. That stand-in is what
  ends up in the operation error's message.
- The container's contextual bindings (`when`/`needs`/`give`) are not
  modelled as container state. Each one is recorded as the binding passed
  with the `make` call, so bindings that persist in the container between
  builds are not modelled.
- Constructor autowiring of a registered service class is not modelled.
  The container's answer is only the new object's identity or a
  throwable.
- EntityServices.Fill: models Eloquent's `fill` as a plain attribute
  overwrite. Fillable and guarded attributes, mass-assignment exceptions,
  casts and mutators are not modelled.
- The entity built by `create` is a value with no key and exactly the
  given attributes. Eloquent defaults and attribute casting are not
  modelled.
- Entities are values, not objects. Object identity and aliasing are not
  modelled. "`update` returns the same instance" is stated as returning
  the filled value that was saved and announced.
- EntityServices.DeleteAnnouncesCapturedKey: a repository that changes
  the entity it is given cannot be expressed, so the announced key is the
  key the entity had when it was passed in.
- The validation rules the repository reports are fixed per repository.
  `getModelValidationRules()` is assumed to return the same rules on
  every call.
- A validation error carries the data and rules, not a validator object.
  The validator's messages are not modelled.
- Event classes are folded into one `Event` datatype. Exception classes
  are error tags carrying their message, code and previous throwable.
- `trans()` message lookup is not modelled. A repository failure's
  message is passed through as is.
- Keys are strings. PHP's coercion of an integer key to the `string $id`
  parameter is not modelled.
- The `EntityService` constructor's other parameters are not modelled.
  They are the validator factory, connection and dispatcher, and they
  appear as the per-call replies and the validator predicate.
- The `restfulServiceFactory` that `EntityService` stores but never uses
  is not modelled.
- The factory's repository factory appears only as the `GetRepository`
  call and its reply.
- `EntityServiceBindingException` is not modelled. No code path in the
  core throws it.
- The `sharedInstances[$modelClass] === null` test in `build` is the same
  as key absence in the model, because no null is ever stored.
- Which subclass overrides `checkBeforeDelete` is not modelled. The hook
  does nothing by default. Whether it throws is a per-call reply, and a
  throwable from it escapes before any transaction.
- The service provider, facades and package configuration are not part
  of this model. They only wire the factory into the application.
- Concurrency is not modelled. PHP serves one request per process.
