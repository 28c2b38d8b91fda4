/**
 * The entity service factory (src/Services/EntityServiceFactory.php): a
 * registry of custom service classes per model class, and a cache holding
 * one built service per model class.
 *
 * `is_subclass_of` is an abstract relation fixed at construction. The
 * repository factory and the DI container are code this model cannot see:
 * what they answer during one `build` is a `Replies` parameter, and every
 * call the factory makes to them is recorded in order.
 */
module EntityServiceFactories {
  import opened Results
  import opened Throwables
  import EntityServices

  /** `is_subclass_of(a, b)`: `a` names a class that strictly extends, or implements, `b`. */
  type Hierarchy = (ClassName, ClassName) -> bool

  /** The contextual bindings given to the container for the default service: `$className` and the repository. */
  datatype Binding = Binding(className: ClassName, repository: EntityServices.Repository)

  /** A service the container built: its object identity, its class and, for the default service, its bindings. */
  datatype Service = Service(handle: nat, cls: ClassName, binding: Option<Binding>)

  /** A call the factory makes to a collaborator. */
  datatype Call =
    | GetRepository(modelClass: ClassName)            // repositoryFactory->getRepository
    | Make(cls: ClassName, binding: Option<Binding>)  // container->make, after the contextual bindings

  /**
   * The answers of the collaborators during one build: the repository the
   * repository factory returns or what it throws, and the identity of the
   * object the container makes or what it throws.
   */
  datatype Replies = Replies(repository: Result<EntityServices.Repository, Throwable>, made: Result<nat, Throwable>)

  /** What register and build throw. */
  datatype Error =
    | RegisterException(message: string)                                  // EntityServiceRegisterException
    | EntityServiceException(message: string, code: int, previous: Throwable)
    | Propagated(cause: Throwable)                                        // not caught by the factory

  /** The factory's two tables. */
  datatype Tables = Tables(registered: map<ClassName, ClassName>, shared: map<ClassName, Service>)

  /** What buildEntityService did and what it returned or threw. */
  datatype Construction = Construction(calls: seq<Call>, result: Result<Service, Error>)

  /** What build did, what it returned or threw, and the tables afterwards. */
  datatype Built = Built(calls: seq<Call>, result: Result<Service, Error>, tables: Tables)

  // ---------------------------------------------------------------------------
  // register

  /** The two checks of register, in order. */
  function RegisterCheck(isSubclassOf: Hierarchy, modelClass: ClassName, serviceClass: ClassName): Option<Error> {
    if !isSubclassOf(modelClass, ModelClass) then
      Some(RegisterException(modelClass + " must extend " + ModelClass))
    else if !isSubclassOf(serviceClass, IEntityServiceClass) then
      Some(RegisterException(serviceClass + " must implement " + IEntityServiceClass))
    else
      None
  }

  function RegisterSpec(isSubclassOf: Hierarchy, t: Tables, modelClass: ClassName, serviceClass: ClassName): Tables {
    if RegisterCheck(isSubclassOf, modelClass, serviceClass).None? then
      t.(registered := t.registered[modelClass := serviceClass])
    else
      t
  }

  /**
   * register fails exactly when the model class does not strictly extend
   * Model or the service class does not implement IEntityService, and then
   * changes nothing; otherwise it sets the one registry entry and never
   * touches the cache.
   */
  lemma RegisterGuardsEntry(isSubclassOf: Hierarchy, t: Tables, modelClass: ClassName, serviceClass: ClassName)
    ensures var error := RegisterCheck(isSubclassOf, modelClass, serviceClass);
      var t' := RegisterSpec(isSubclassOf, t, modelClass, serviceClass);
      && (error.Some? <==> !isSubclassOf(modelClass, ModelClass) || !isSubclassOf(serviceClass, IEntityServiceClass))
      && (!isSubclassOf(modelClass, ModelClass) ==>
            error == Some(RegisterException(modelClass + " must extend " + ModelClass)))
      && (isSubclassOf(modelClass, ModelClass) && !isSubclassOf(serviceClass, IEntityServiceClass) ==>
            error == Some(RegisterException(serviceClass + " must implement " + IEntityServiceClass)))
      && (error.Some? ==> t' == t)
      && (error.None? ==> t'.registered == t.registered[modelClass := serviceClass])
      && t'.shared == t.shared
  {
  }

  /** Model itself is not a strict subclass of Model, so it cannot be registered. */
  lemma RegisterRejectsModelItself(isSubclassOf: Hierarchy, t: Tables, serviceClass: ClassName)
    requires forall c :: !isSubclassOf(c, c)
    ensures RegisterCheck(isSubclassOf, ModelClass, serviceClass).Some?
    ensures RegisterSpec(isSubclassOf, t, ModelClass, serviceClass) == t
  {
    assert !isSubclassOf(ModelClass, ModelClass);
  }

  // ---------------------------------------------------------------------------
  // buildEntityService and build

  /** `catch (RepositoryException $e)`: only repository failures are wrapped, keeping message and code. */
  function CatchRepositoryException(isSubclassOf: Hierarchy, cause: Throwable): (e: Error)
    ensures e.EntityServiceException? <==>
              cause.cls == RepositoryExceptionClass || isSubclassOf(cause.cls, RepositoryExceptionClass)
    ensures e.EntityServiceException? ==> e == EntityServiceException(cause.message, cause.code, cause)
    ensures !e.EntityServiceException? ==> e == Propagated(cause)
  {
    if cause.cls == RepositoryExceptionClass || isSubclassOf(cause.cls, RepositoryExceptionClass) then
      EntityServiceException(cause.message, cause.code, cause)
    else
      Propagated(cause)
  }

  /** The container makes `cls` with `binding`, or throws. */
  function MakeSpec(isSubclassOf: Hierarchy, cls: ClassName, binding: Option<Binding>, made: Result<nat, Throwable>): Result<Service, Error> {
    match made
    case Success(handle) => Success(Service(handle, cls, binding))
    case Failure(cause) => Failure(CatchRepositoryException(isSubclassOf, cause))
  }

  function BuildEntityServiceSpec(isSubclassOf: Hierarchy, registered: map<ClassName, ClassName>,
                                  modelClass: ClassName, r: Replies): Construction {
    if modelClass in registered then
      var cls := registered[modelClass];
      Construction([Make(cls, None)], MakeSpec(isSubclassOf, cls, None, r.made))
    else
      match r.repository
      case Failure(cause) =>
        Construction([GetRepository(modelClass)], Failure(CatchRepositoryException(isSubclassOf, cause)))
      case Success(repository) =>
        var binding := Some(Binding(modelClass, repository));
        Construction([GetRepository(modelClass), Make(EntityServiceClass, binding)],
                     MakeSpec(isSubclassOf, EntityServiceClass, binding, r.made))
  }

  function BuildSpec(isSubclassOf: Hierarchy, t: Tables, modelClass: ClassName, r: Replies): Built {
    if modelClass in t.shared then
      Built([], Success(t.shared[modelClass]), t)
    else
      var c := BuildEntityServiceSpec(isSubclassOf, t.registered, modelClass, r);
      match c.result
      case Success(service) => Built(c.calls, c.result, t.(shared := t.shared[modelClass := service]))
      case Failure(_) => Built(c.calls, c.result, t)
  }

  /** A second build of the same model class returns the identical instance and calls nothing. */
  lemma BuildTwiceReturnsSameInstance(isSubclassOf: Hierarchy, t: Tables, modelClass: ClassName, r1: Replies, r2: Replies)
    requires BuildSpec(isSubclassOf, t, modelClass, r1).result.Success?
    ensures var first := BuildSpec(isSubclassOf, t, modelClass, r1);
      BuildSpec(isSubclassOf, first.tables, modelClass, r2) == Built([], first.result, first.tables)
  {
  }

  /** An uncached, registered model class: the container makes exactly the registered class; the repository factory is not consulted. */
  lemma BuildMakesRegisteredClass(isSubclassOf: Hierarchy, t: Tables, modelClass: ClassName, r: Replies)
    requires modelClass !in t.shared && modelClass in t.registered
    ensures var b := BuildSpec(isSubclassOf, t, modelClass, r);
      && b.calls == [Make(t.registered[modelClass], None)]
      && (b.result.Success? <==> r.made.Success?)
      && (b.result.Success? ==> b.result.value == Service(r.made.value, t.registered[modelClass], None))
  {
  }

  /**
   * An uncached, unregistered model class: the repository factory is asked
   * for its repository, and the container makes the default EntityService
   * bound to that model class and that repository.
   */
  lemma BuildMakesDefaultService(isSubclassOf: Hierarchy, t: Tables, modelClass: ClassName, r: Replies)
    requires modelClass !in t.shared && modelClass !in t.registered
    ensures var b := BuildSpec(isSubclassOf, t, modelClass, r);
      && |b.calls| >= 1 && b.calls[0] == GetRepository(modelClass)
      && (r.repository.Failure? ==> |b.calls| == 1)
      && (r.repository.Success? ==>
            b.calls == [GetRepository(modelClass), Make(EntityServiceClass, Some(Binding(modelClass, r.repository.value)))])
      && (b.result.Success? <==> r.repository.Success? && r.made.Success?)
      && (b.result.Success? ==>
            b.result.value == Service(r.made.value, EntityServiceClass, Some(Binding(modelClass, r.repository.value))))
  {
  }

  /**
   * A failed build leaves the tables as they were, so a later build tries
   * again; a repository failure comes back wrapped, anything else unchanged.
   */
  lemma FailedBuildIsNotCached(isSubclassOf: Hierarchy, t: Tables, modelClass: ClassName, r: Replies)
    requires BuildSpec(isSubclassOf, t, modelClass, r).result.Failure?
    ensures var b := BuildSpec(isSubclassOf, t, modelClass, r);
      var cause := if modelClass !in t.registered && r.repository.Failure? then r.repository.error else r.made.error;
      && b.tables == t
      && modelClass !in b.tables.shared
      && b.result.error == CatchRepositoryException(isSubclassOf, cause)
  {
  }

  // ---------------------------------------------------------------------------
  // What the tables always satisfy

  /** Every registry entry passed both checks of register. */
  ghost predicate RegistrationsValid(isSubclassOf: Hierarchy, registered: map<ClassName, ClassName>) {
    forall m :: m in registered ==> isSubclassOf(m, ModelClass) && isSubclassOf(registered[m], IEntityServiceClass)
  }

  /** Every cached service is a registered class, or the default service bound to its own model class. */
  ghost predicate InstancesFit(isSubclassOf: Hierarchy, shared: map<ClassName, Service>) {
    forall m :: m in shared ==>
      match shared[m].binding
      case Some(b) => shared[m].cls == EntityServiceClass && b.className == m
      case None => isSubclassOf(shared[m].cls, IEntityServiceClass)
  }

  ghost predicate TablesValid(isSubclassOf: Hierarchy, t: Tables) {
    RegistrationsValid(isSubclassOf, t.registered) && InstancesFit(isSubclassOf, t.shared)
  }

  lemma RegisterKeepsTablesValid(isSubclassOf: Hierarchy, t: Tables, modelClass: ClassName, serviceClass: ClassName)
    requires TablesValid(isSubclassOf, t)
    ensures TablesValid(isSubclassOf, RegisterSpec(isSubclassOf, t, modelClass, serviceClass))
  {
  }

  lemma BuildKeepsTablesValid(isSubclassOf: Hierarchy, t: Tables, modelClass: ClassName, r: Replies)
    requires TablesValid(isSubclassOf, t)
    ensures TablesValid(isSubclassOf, BuildSpec(isSubclassOf, t, modelClass, r).tables)
  {
  }

  // ---------------------------------------------------------------------------
  // Sessions: any sequence of register and build calls

  datatype Request =
    | RegisterRequest(modelClass: ClassName, serviceClass: ClassName)
    | BuildRequest(modelClass: ClassName, replies: Replies)

  function Apply(isSubclassOf: Hierarchy, t: Tables, q: Request): Tables {
    match q
    case RegisterRequest(m, s) => RegisterSpec(isSubclassOf, t, m, s)
    case BuildRequest(m, r) => BuildSpec(isSubclassOf, t, m, r).tables
  }

  function Session(isSubclassOf: Hierarchy, t: Tables, qs: seq<Request>): Tables
    decreases |qs|
  {
    if qs == [] then t else Session(isSubclassOf, Apply(isSubclassOf, t, qs[0]), qs[1..])
  }

  /** A cache entry is never replaced or evicted, whatever is registered or built afterwards. */
  lemma {:induction false} CacheEntryIsStable(isSubclassOf: Hierarchy, t: Tables, qs: seq<Request>, modelClass: ClassName)
    requires modelClass in t.shared
    ensures var t' := Session(isSubclassOf, t, qs);
      modelClass in t'.shared && t'.shared[modelClass] == t.shared[modelClass]
    decreases |qs|
  {
    if qs != [] {
      CacheEntryIsStable(isSubclassOf, Apply(isSubclassOf, t, qs[0]), qs[1..], modelClass);
    }
  }

  /**
   * One instance per model class: once build has returned a service for a
   * model class, every later build of it returns that identical service and
   * calls nothing, even after the class is registered to another service.
   */
  lemma OneInstancePerModelClass(isSubclassOf: Hierarchy, t: Tables, modelClass: ClassName,
                                 r1: Replies, qs: seq<Request>, r2: Replies)
    requires BuildSpec(isSubclassOf, t, modelClass, r1).result.Success?
    ensures var first := BuildSpec(isSubclassOf, t, modelClass, r1);
      var later := Session(isSubclassOf, first.tables, qs);
      BuildSpec(isSubclassOf, later, modelClass, r2) == Built([], first.result, later)
  {
    var first := BuildSpec(isSubclassOf, t, modelClass, r1);
    CacheEntryIsStable(isSubclassOf, first.tables, qs, modelClass);
  }

  /** Any session keeps the tables valid. */
  lemma {:induction false} SessionKeepsTablesValid(isSubclassOf: Hierarchy, t: Tables, qs: seq<Request>)
    requires TablesValid(isSubclassOf, t)
    ensures TablesValid(isSubclassOf, Session(isSubclassOf, t, qs))
    decreases |qs|
  {
    if qs != [] {
      match qs[0] {
        case RegisterRequest(m, s) => RegisterKeepsTablesValid(isSubclassOf, t, m, s);
        case BuildRequest(m, r) => BuildKeepsTablesValid(isSubclassOf, t, m, r);
      }
      SessionKeepsTablesValid(isSubclassOf, Apply(isSubclassOf, t, qs[0]), qs[1..]);
    }
  }

  // ---------------------------------------------------------------------------
  // The factory object

  class EntityServiceFactory {
    const isSubclassOf: Hierarchy
    /** Model class to custom service class. */
    var registeredServices: map<ClassName, ClassName>
    /** Model class to the service already built for it. */
    var sharedInstances: map<ClassName, Service>
    /** Every call made so far to the repository factory and the container. */
    var calls: seq<Call>

    function CurrentTables(): Tables
      reads this
    {
      Tables(registeredServices, sharedInstances)
    }

    ghost predicate Valid()
      reads this
    {
      TablesValid(isSubclassOf, CurrentTables())
    }

    constructor (isSubclassOf: Hierarchy)
      ensures this.isSubclassOf == isSubclassOf
      ensures registeredServices == map[] && sharedInstances == map[] && calls == []
      ensures Valid()
    {
      this.isSubclassOf := isSubclassOf;
      registeredServices := map[];
      sharedInstances := map[];
      calls := [];
    }

    /** register: check both classes, then set the registry entry; the cache is never touched. */
    method Register(modelClass: ClassName, serviceClass: ClassName) returns (error: Option<Error>)
      requires Valid()
      modifies this
      ensures Valid()
      ensures error == RegisterCheck(isSubclassOf, modelClass, serviceClass)
      ensures CurrentTables() == RegisterSpec(isSubclassOf, old(CurrentTables()), modelClass, serviceClass)
      ensures sharedInstances == old(sharedInstances) && calls == old(calls)
    {
      if !isSubclassOf(modelClass, ModelClass) {
        return Some(RegisterException(modelClass + " must extend " + ModelClass));
      }
      if !isSubclassOf(serviceClass, IEntityServiceClass) {
        return Some(RegisterException(serviceClass + " must implement " + IEntityServiceClass));
      }
      registeredServices := registeredServices[modelClass := serviceClass];
      error := None;
    }

    /** The container's make, wrapped by buildEntityService's catch. */
    method MakeService(cls: ClassName, binding: Option<Binding>, made: Result<nat, Throwable>) returns (result: Result<Service, Error>)
      modifies this`calls
      ensures calls == old(calls) + [Make(cls, binding)]
      ensures result == MakeSpec(isSubclassOf, cls, binding, made)
    {
      calls := calls + [Make(cls, binding)];
      if made.Failure? {
        return Failure(CatchRepositoryException(isSubclassOf, made.error));
      }
      result := Success(Service(made.value, cls, binding));
    }

    /** buildEntityService: the registered class if there is one, else the default service for the model class. */
    method BuildEntityService(modelClass: ClassName, r: Replies) returns (result: Result<Service, Error>)
      modifies this`calls
      ensures var c := BuildEntityServiceSpec(isSubclassOf, registeredServices, modelClass, r);
        calls == old(calls) + c.calls && result == c.result
    {
      if modelClass in registeredServices {
        result := MakeService(registeredServices[modelClass], None, r.made);
        return;
      }
      calls := calls + [GetRepository(modelClass)];
      if r.repository.Failure? {
        return Failure(CatchRepositoryException(isSubclassOf, r.repository.error));
      }
      result := MakeService(EntityServiceClass, Some(Binding(modelClass, r.repository.value)), r.made);
    }

    /** build: the cached service, or a newly built one that is then cached; a failed build caches nothing. */
    method Build(modelClass: ClassName, r: Replies) returns (result: Result<Service, Error>)
      requires Valid()
      modifies this
      ensures Valid()
      ensures var b := BuildSpec(isSubclassOf, old(CurrentTables()), modelClass, r);
        && calls == old(calls) + b.calls
        && result == b.result
        && CurrentTables() == b.tables
    {
      BuildKeepsTablesValid(isSubclassOf, CurrentTables(), modelClass, r);
      if modelClass !in sharedInstances {
        var built := BuildEntityService(modelClass, r);
        if built.Failure? {
          return built;
        }
        sharedInstances := sharedInstances[modelClass := built.value];
      }
      result := Success(sharedInstances[modelClass]);
    }
  }
}
