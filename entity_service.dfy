/**
 * The default entity service (src/Services/EntityService.php): validate the
 * input, then run the persistence step inside a database transaction and
 * dispatch a lifecycle event.
 *
 * The collaborators the service is given (validator, connection, repository,
 * event dispatcher) are code this model cannot see. The validator is an
 * uninterpreted predicate fixed at construction; what the connection, the
 * repository and the dispatcher answer during one call is a `Replies`
 * parameter of that call. Every call the service makes to them is recorded,
 * in order, in the effect trace.
 *
 * The pure functions below (`ValidateSpec`, `CallbackSpec`, `TransactionSpec`,
 * `CreateSpec`, `UpdateSpec`, `DeleteSpec`) specify each operation as the
 * effects it causes and the outcome it has; the `EntityService` class does
 * the same work step by step and is proved to agree with them.
 */
module EntityServices {
  import opened Results
  import opened Throwables

  type Field = string
  /** Attribute values; PHP's loose typing of values is not modelled. */
  type Params = map<Field, string>
  /** Validation rules: field name to rule expression. */
  type Rules = map<Field, string>

  /** The code every EntityServiceOperationException carries. */
  const HttpInternalServerError: int := 500
  /**
   * Stand-in for the message of the TypeError raised when a null key is
   * passed as `string $id`; PHP's own text varies between versions.
   */
  const NullIdMessage: string := "Argument 2 passed to EntityDeletedEvent::__construct() must be of the type string, null given"

  /** A model instance: its class, its primary key (null when unset) and its attributes. */
  datatype Entity = Entity(cls: ClassName, key: Option<string>, attributes: Params)

  /** An injected repository: its identity and the rules `getModelValidationRules()` returns. */
  datatype Repository = Repository(handle: nat, modelRules: Rules)

  /** The three lifecycle events. */
  datatype Event =
    | EntityCreated(entity: Entity)
    | EntityUpdated(entity: Entity)
    | EntityDeleted(deletedClass: ClassName, id: string)
  {
    /** Created and updated events record the class of the entity they carry. */
    function ModelClass(): ClassName {
      match this
      case EntityCreated(e) => e.cls
      case EntityUpdated(e) => e.cls
      case EntityDeleted(c, _) => c
    }
  }

  /** One call the service makes to a collaborator. */
  datatype Effect =
    | Validated(data: Params, rules: Rules)   // validatorFactory->make(data, rules)
    | BeginTransaction
    | Commit(committed: bool)                  // false: commit() threw
    | RollBack
    | RepositoryCreate(model: Entity)
    | RepositorySave(model: Entity)
    | RepositoryDelete(model: Entity)
    | Dispatched(event: Event)

  /** What the public operations throw. */
  datatype Error =
    | ValidationError(data: Params, rules: Rules)                       // ValidationException
    | OperationError(message: string, code: int, previous: Throwable)   // EntityServiceOperationException
    | Escaped(cause: Throwable)                                         // a throwable that is not caught

  /**
   * The answers the collaborators give during one call: `Some(t)` means the
   * call throws `t`. `guard` is the answer of the overridable
   * `checkBeforeDelete` hook, `None` for the default hook.
   */
  datatype Replies = Replies(
    guard: Option<Throwable>,
    begin: Option<Throwable>,
    created: Result<Entity, Throwable>,
    saved: Option<Throwable>,
    deleted: Option<Throwable>,
    dispatched: Option<Throwable>,
    commit: Option<Throwable>,
    rollBack: Option<Throwable>)

  /** The closures handed to `handleTransaction`, one constructor each. */
  datatype Callback =
    | CreateModel(params: Params)
    | UpdateModel(model: Entity, params: Params)
    | DeleteModel(model: Entity)

  /** What a closure did, and the value it returned (the model, or null) or what it threw. */
  datatype Run = Run(effects: seq<Effect>, result: Result<Option<Entity>, Throwable>)

  /** What an operation did, and what it returned or threw. */
  datatype Step = Step(effects: seq<Effect>, result: Result<Option<Entity>, Error>)

  /** The outcome of `validate`: the validator call and the exception, if any. */
  datatype Check = Check(effect: Effect, error: Option<Error>)

  // ---------------------------------------------------------------------------
  // Transactions in a trace

  predicate IsConnectionCall(e: Effect) {
    e.BeginTransaction? || e.Commit? || e.RollBack?
  }

  /** How a call changes the number of open transactions: a begin opens one; a commit that returned or a rollback closes it. */
  function Delta(e: Effect): int {
    match e
    case BeginTransaction => 1
    case Commit(committed) => if committed then -1 else 0
    case RollBack => -1
    case _ => 0
  }

  /** Number of transactions a trace leaves open. */
  function Open(t: seq<Effect>): int {
    if t == [] then 0 else Open(t[..|t| - 1]) + Delta(t[|t| - 1])
  }

  /**
   * Every beginTransaction call is closed by exactly one commit that returned
   * or one rollBack call, and no transaction is begun while another is open.
   */
  predicate Balanced(t: seq<Effect>) {
    Open(t) == 0 && forall i :: 0 <= i <= |t| ==> 0 <= Open(t[..i]) <= 1
  }

  predicate Connectionless(t: seq<Effect>) {
    forall i :: 0 <= i < |t| ==> !IsConnectionCall(t[i])
  }

  /** Some event was dispatched in `t`. */
  predicate Dispatches(t: seq<Effect>) {
    exists i :: 0 <= i < |t| && t[i].Dispatched?
  }

  lemma {:induction false} OpenAppend(a: seq<Effect>, b: seq<Effect>)
    ensures Open(a + b) == Open(a) + Open(b)
    decreases |b|
  {
    if b == [] {
      assert a + b == a;
    } else {
      var ab := a + b;
      assert ab[..|ab| - 1] == a + b[..|b| - 1];
      assert ab[|ab| - 1] == b[|b| - 1];
      OpenAppend(a, b[..|b| - 1]);
    }
  }

  lemma {:induction false} OpenConnectionless(t: seq<Effect>)
    requires Connectionless(t)
    ensures Open(t) == 0
    decreases |t|
  {
    if t != [] {
      assert !IsConnectionCall(t[|t| - 1]);
      OpenConnectionless(t[..|t| - 1]);
    }
  }

  /** Balanced traces compose: a session of operations keeps the property. */
  lemma BalancedAppend(a: seq<Effect>, b: seq<Effect>)
    requires Balanced(a) && Balanced(b)
    ensures Balanced(a + b)
  {
    var ab := a + b;
    OpenAppend(a, b);
    forall i | 0 <= i <= |ab|
      ensures 0 <= Open(ab[..i]) <= 1
    {
      if i <= |a| {
        assert ab[..i] == a[..i];
      } else {
        assert ab[..i] == a + b[..i - |a|];
        OpenAppend(a, b[..i - |a|]);
      }
    }
  }

  /** A begin, calls that do not touch the connection, and a closing sequence. */
  lemma BracketBalanced(body: seq<Effect>, close: seq<Effect>)
    requires Connectionless(body)
    requires close == [Commit(true)] || close == [RollBack] || close == [Commit(false), RollBack]
    ensures Balanced([BeginTransaction] + body + close)
  {
    var t := [BeginTransaction] + body + close;
    OpenConnectionless(body);
    OpenAppend([BeginTransaction], body);
    OpenAppend([BeginTransaction] + body, close);
    assert Open([BeginTransaction]) == 1 by {
      assert [BeginTransaction][..0] == [];
    }
    forall i | 0 <= i <= |t|
      ensures 0 <= Open(t[..i]) <= 1
    {
      if i == 0 {
        assert t[..i] == [];
      } else if i <= 1 + |body| {
        assert t[..i] == [BeginTransaction] + body[..i - 1];
        assert Connectionless(body[..i - 1]);
        OpenConnectionless(body[..i - 1]);
        OpenAppend([BeginTransaction], body[..i - 1]);
      } else {
        var k := i - 1 - |body|;
        assert t[..i] == ([BeginTransaction] + body) + close[..k];
        OpenAppend([BeginTransaction] + body, close[..k]);
        if k == 1 {
          assert close[..k] == [close[0]] && [close[0]][..0] == [];
        } else {
          assert close[..k] == close == [Commit(false), RollBack];
          assert close[..1] == [Commit(false)] && [Commit(false)][..0] == [];
        }
      }
    }
  }

  // ---------------------------------------------------------------------------
  // validate and getValidationRulesForAttributes

  /** `$rules ?? $this->repository->getModelValidationRules()`: only a missing rule set falls back. */
  function EffectiveRules(rules: Option<Rules>, modelRules: Rules): Rules {
    match rules
    case Some(given) => given
    case None => modelRules
  }

  /**
   * `array_intersect_key($modelRules, $modelParams)`, where `$modelRules` is
   * the custom rule set unless that is empty, the model's rules otherwise.
   */
  function RulesForAttributes(params: Params, custom: Rules, modelRules: Rules): (r: Rules)
    ensures var source := if custom == map[] then modelRules else custom;
      && r.Keys == source.Keys * params.Keys
      && forall f :: f in r ==> r[f] == source[f]
  {
    var source := if custom == map[] then modelRules else custom;
    map f | f in source && f in params :: source[f]
  }

  function ValidateSpec(validates: (Params, Rules) -> bool, modelRules: Rules, data: Params, rules: Option<Rules>): Check {
    var used := EffectiveRules(rules, modelRules);
    Check(Validated(data, used), if validates(data, used) then None else Some(ValidationError(data, used)))
  }

  lemma ValidateFallsBackOnlyWhenMissing(validates: (Params, Rules) -> bool, modelRules: Rules, data: Params, rules: Option<Rules>)
    ensures ValidateSpec(validates, modelRules, data, rules).effect
         == Validated(data, if rules.None? then modelRules else rules.value)
    ensures ValidateSpec(validates, modelRules, data, rules).error.Some?
        <==> !validates(data, if rules.None? then modelRules else rules.value)
  {
  }

  // ---------------------------------------------------------------------------
  // The closures and handleTransaction

  /** `$model->fill($modelParams)`: the given attributes overwrite the entity's. */
  function Fill(model: Entity, params: Params): (filled: Entity)
    ensures filled.cls == model.cls && filled.key == model.key
    ensures filled.attributes.Keys == model.attributes.Keys + params.Keys
    ensures forall f :: f in filled.attributes ==>
      filled.attributes[f] == if f in params then params[f] else model.attributes[f]
  {
    model.(attributes := model.attributes + params)
  }

  /** Dispatch `event` after `effects`; the closure returns `returned` unless the dispatcher throws. */
  function Announce(effects: seq<Effect>, event: Event, returned: Option<Entity>, r: Replies): Run {
    Run(effects + [Dispatched(event)], if r.dispatched.Some? then Failure(r.dispatched.value) else Success(returned))
  }

  function CallbackSpec(modelClass: ClassName, cb: Callback, r: Replies): Run {
    match cb
    case CreateModel(params) =>
      var built := Entity(modelClass, None, params);
      (match r.created
       case Failure(t) => Run([RepositoryCreate(built)], Failure(t))
       case Success(stored) => Announce([RepositoryCreate(built)], EntityCreated(stored), Some(stored), r))
    case UpdateModel(model, params) =>
      var filled := Fill(model, params);
      (match r.saved
       case Some(t) => Run([RepositorySave(filled)], Failure(t))
       case None => Announce([RepositorySave(filled)], EntityUpdated(filled), Some(filled), r))
    case DeleteModel(model) =>
      var id := model.key;
      (match r.deleted
       case Some(t) => Run([RepositoryDelete(model)], Failure(t))
       case None =>
         match id
         case None => Run([RepositoryDelete(model)], Failure(Throwable(TypeErrorClass, NullIdMessage, 0)))
         case Some(k) => Announce([RepositoryDelete(model)], EntityDeleted(modelClass, k), None, r))
  }

  /** Roll back after `effects` because of `cause`; a throwing rollBack escapes unwrapped. */
  function Abort(effects: seq<Effect>, cause: Throwable, r: Replies): Step {
    Step(effects + [RollBack],
         Failure(if r.rollBack.Some? then Escaped(r.rollBack.value)
                 else OperationError(cause.message, HttpInternalServerError, cause)))
  }

  function TransactionSpec(run: Run, r: Replies): Step {
    if r.begin.Some? then Abort([BeginTransaction], r.begin.value, r)
    else
      var begun := [BeginTransaction] + run.effects;
      match run.result
      case Failure(t) => Abort(begun, t, r)
      case Success(v) =>
        if r.commit.Some? then Abort(begun + [Commit(false)], r.commit.value, r)
        else Step(begun + [Commit(true)], Success(v))
  }

  /** handleTransaction begins first and leaves every transaction it began closed. */
  lemma TransactionBalanced(run: Run, r: Replies)
    requires Connectionless(run.effects)
    ensures var s := TransactionSpec(run, r);
      |s.effects| >= 2 && s.effects[0] == BeginTransaction && Balanced(s.effects)
  {
    var s := TransactionSpec(run, r);
    if r.begin.Some? {
      BracketBalanced([], [RollBack]);
      assert [BeginTransaction] + [] + [RollBack] == s.effects;
    } else if run.result.Failure? {
      BracketBalanced(run.effects, [RollBack]);
    } else if r.commit.Some? {
      BracketBalanced(run.effects, [Commit(false), RollBack]);
      assert [BeginTransaction] + run.effects + [Commit(false), RollBack] == s.effects;
    } else {
      BracketBalanced(run.effects, [Commit(true)]);
    }
  }

  /**
   * handleTransaction succeeds exactly when begin, the callback and commit
   * all return; it then returns the callback's value after one commit.
   */
  lemma TransactionCommits(run: Run, r: Replies)
    ensures var s := TransactionSpec(run, r);
      && (s.result.Success? <==> r.begin.None? && run.result.Success? && r.commit.None?)
      && (s.result.Success? ==>
            && s.effects == [BeginTransaction] + run.effects + [Commit(true)]
            && s.result.value == run.result.value)
  {
  }

  /**
   * On any failure of begin, the callback or commit, handleTransaction makes
   * exactly one rollBack call, as its last call, commits nothing, and throws
   * an operation error (code 500, same message) chained to the failure;
   * a throwable raised by rollBack itself escapes unwrapped.
   */
  lemma TransactionRollsBack(run: Run, r: Replies)
    requires Connectionless(run.effects)
    requires TransactionSpec(run, r).result.Failure?
    ensures var s := TransactionSpec(run, r);
      && |s.effects| >= 2
      && s.effects[|s.effects| - 1] == RollBack
      && RollBack !in s.effects[..|s.effects| - 1]
      && Commit(true) !in s.effects
      && s.result.error == (
           if r.rollBack.Some? then Escaped(r.rollBack.value)
           else
             var cause := if r.begin.Some? then r.begin.value
                          else if run.result.Failure? then run.result.error
                          else r.commit.value;
             OperationError(cause.message, HttpInternalServerError, cause))
  {
    var s := TransactionSpec(run, r);
    var tail := if r.begin.Some? || run.result.Failure? then [] else [Commit(false)];
    var body := if r.begin.Some? then [] else run.effects;
    assert s.effects == [BeginTransaction] + body + tail + [RollBack];
    var pre := s.effects[..|s.effects| - 1];
    assert pre == [BeginTransaction] + body + tail;
    forall i | 0 <= i < |s.effects|
      ensures s.effects[i] != Commit(true)
      ensures i < |pre| ==> pre[i] != RollBack
    {
      if 0 < i <= |body| {
        assert s.effects[i] == body[i - 1];
      }
    }
  }

  /** The closures make no connection calls, and dispatch only after the repository call returned. */
  lemma CallbackShape(modelClass: ClassName, cb: Callback, r: Replies)
    ensures var run := CallbackSpec(modelClass, cb, r);
      && Connectionless(run.effects)
      && 1 <= |run.effects| <= 2
      && (|run.effects| == 2 <==>
            match cb
            case CreateModel(_) => r.created.Success?
            case UpdateModel(_, _) => r.saved.None?
            case DeleteModel(m) => r.deleted.None? && m.key.Some?)
      && run.effects[0] == (match cb
                            case CreateModel(p) => RepositoryCreate(Entity(modelClass, None, p))
                            case UpdateModel(m, p) => RepositorySave(Fill(m, p))
                            case DeleteModel(m) => RepositoryDelete(m))
      && (|run.effects| == 2 ==> run.effects[1] == Dispatched(match cb
                            case CreateModel(_) => EntityCreated(r.created.value)
                            case UpdateModel(m, p) => EntityUpdated(Fill(m, p))
                            case DeleteModel(m) => EntityDeleted(modelClass, m.key.value)))
  {
  }

  // ---------------------------------------------------------------------------
  // The public operations

  /** Prefix a passed validation to what follows, or stop at a failed one. */
  function AfterValidation(v: Check, rest: Step): Step {
    match v.error
    case Some(e) => Step([v.effect], Failure(e))
    case None => Step([v.effect] + rest.effects, rest.result)
  }

  function CreateSpec(modelClass: ClassName, repository: Repository, validates: (Params, Rules) -> bool,
                      params: Params, r: Replies): Step {
    AfterValidation(ValidateSpec(validates, repository.modelRules, params, None),
              TransactionSpec(CallbackSpec(modelClass, CreateModel(params), r), r))
  }

  function UpdateSpec(modelClass: ClassName, repository: Repository, validates: (Params, Rules) -> bool,
                      model: Entity, params: Params, r: Replies): Step {
    var rules := RulesForAttributes(params, map[], repository.modelRules);
    AfterValidation(ValidateSpec(validates, repository.modelRules, params, Some(rules)),
              TransactionSpec(CallbackSpec(modelClass, UpdateModel(model, params), r), r))
  }

  function DeleteSpec(modelClass: ClassName, model: Entity, r: Replies): Step {
    match r.guard
    case Some(t) => Step([], Failure(Escaped(t)))
    case None => TransactionSpec(CallbackSpec(modelClass, DeleteModel(model), r), r)
  }

  // ---------------------------------------------------------------------------
  // What the operations promise

  /** A call that does not touch the connection is balanced on its own. */
  lemma SingleCallBalanced(e: Effect)
    requires !IsConnectionCall(e)
    ensures Balanced([e])
  {
    assert [e][..0] == [];
    assert [e][..1] == [e];
  }

  /** A failed validation is the only call create makes: no transaction, no repository call, no event. */
  lemma CreateRejectsInvalidParams(modelClass: ClassName, repository: Repository,
                                   validates: (Params, Rules) -> bool, params: Params, r: Replies)
    requires !validates(params, repository.modelRules)
    ensures CreateSpec(modelClass, repository, validates, params, r)
         == Step([Validated(params, repository.modelRules)],
                 Failure(ValidationError(params, repository.modelRules)))
  {
  }

  /**
   * create succeeds exactly when validation against the full rule set passes
   * and every collaborator returns; it then stores a new `modelClass` entity
   * built from the params, announces the model the repository returned, and
   * returns that model.
   */
  lemma CreateStoresThenAnnounces(modelClass: ClassName, repository: Repository,
                                  validates: (Params, Rules) -> bool, params: Params, r: Replies)
    ensures var s := CreateSpec(modelClass, repository, validates, params, r);
      && (s.result.Success? <==>
            validates(params, repository.modelRules) && r.begin.None? && r.created.Success?
            && r.dispatched.None? && r.commit.None?)
      && (s.result.Success? ==>
            && s.effects == [Validated(params, repository.modelRules), BeginTransaction,
                             RepositoryCreate(Entity(modelClass, None, params)),
                             Dispatched(EntityCreated(r.created.value)), Commit(true)]
            && s.result.value == Some(r.created.value))
  {
  }

  /** When the repository's create throws, no event is dispatched and the caller gets an operation error. */
  lemma CreateRepositoryFailure(modelClass: ClassName, repository: Repository,
                                validates: (Params, Rules) -> bool, params: Params, r: Replies)
    requires validates(params, repository.modelRules) && r.begin.None? && r.created.Failure?
    requires r.rollBack.None?
    ensures var s := CreateSpec(modelClass, repository, validates, params, r);
      && s.effects == [Validated(params, repository.modelRules), BeginTransaction,
                       RepositoryCreate(Entity(modelClass, None, params)), RollBack]
      && !Dispatches(s.effects)
      && s.result == Failure(OperationError(r.created.error.message, HttpInternalServerError, r.created.error))
  {
  }

  /**
   * update validates exactly the model rules whose field occurs in the params
   * (an empty set of rules, never the full set, when none does) before any
   * transaction, and a failed validation is the only call it makes.
   */
  lemma UpdateValidatesGivenFields(modelClass: ClassName, repository: Repository,
                                   validates: (Params, Rules) -> bool, model: Entity, params: Params, r: Replies)
    ensures var s := UpdateSpec(modelClass, repository, validates, model, params, r);
      && |s.effects| >= 1 && s.effects[0].Validated? && s.effects[0].data == params
      && s.effects[0].rules.Keys == repository.modelRules.Keys * params.Keys
      && (forall f :: f in s.effects[0].rules ==> s.effects[0].rules[f] == repository.modelRules[f])
      && (repository.modelRules.Keys !! params.Keys ==> s.effects[0].rules == map[])
      && (!validates(params, s.effects[0].rules) <==> s.result == Failure(ValidationError(params, s.effects[0].rules)))
      && (!validates(params, s.effects[0].rules) ==> |s.effects| == 1)
  {
    var rules := RulesForAttributes(params, map[], repository.modelRules);
    if repository.modelRules.Keys !! params.Keys {
      assert rules.Keys == {};
    }
  }

  /**
   * update succeeds exactly when the partial validation passes and every
   * collaborator returns; it then saves the filled entity, announces that
   * same entity and returns it.
   */
  lemma UpdateSavesFilledEntity(modelClass: ClassName, repository: Repository,
                                validates: (Params, Rules) -> bool, model: Entity, params: Params, r: Replies)
    ensures var s := UpdateSpec(modelClass, repository, validates, model, params, r);
      var rules := RulesForAttributes(params, map[], repository.modelRules);
      && (s.result.Success? <==>
            validates(params, rules) && r.begin.None? && r.saved.None? && r.dispatched.None? && r.commit.None?)
      && (s.result.Success? ==>
            && s.effects == [Validated(params, rules), BeginTransaction, RepositorySave(Fill(model, params)),
                             Dispatched(EntityUpdated(Fill(model, params))), Commit(true)]
            && s.result.value == Some(Fill(model, params)))
  {
  }

  /**
   * delete runs the guard hook before any transaction; it succeeds exactly
   * when the guard, the connection, the repository and the dispatcher all
   * return and the entity has a key; the event then carries the service's
   * model class and the key the entity had before the repository call.
   */
  lemma DeleteAnnouncesCapturedKey(modelClass: ClassName, model: Entity, r: Replies)
    ensures var s := DeleteSpec(modelClass, model, r);
      && (r.guard.Some? ==> s == Step([], Failure(Escaped(r.guard.value))))
      && (s.result.Success? <==>
            r.guard.None? && r.begin.None? && r.deleted.None? && model.key.Some?
            && r.dispatched.None? && r.commit.None?)
      && (s.result.Success? ==>
            && s.effects == [BeginTransaction, RepositoryDelete(model),
                             Dispatched(EntityDeleted(modelClass, model.key.value)), Commit(true)]
            && s.result.value == None)
  {
  }

  /**
   * Deleting an entity whose key is null: the repository's delete runs, then
   * building the event throws a TypeError, and the transaction is rolled back.
   */
  lemma DeleteWithoutKeyRollsBack(modelClass: ClassName, model: Entity, r: Replies)
    requires model.key.None?
    requires r.guard.None? && r.begin.None? && r.deleted.None? && r.rollBack.None?
    ensures var s := DeleteSpec(modelClass, model, r);
      && s.effects == [BeginTransaction, RepositoryDelete(model), RollBack]
      && s.result.Failure? && s.result.error.OperationError?
      && s.result.error.previous.cls == TypeErrorClass
  {
  }

  /** When the repository's save throws, no event is dispatched and the caller gets an operation error. */
  lemma UpdateRepositoryFailure(modelClass: ClassName, repository: Repository,
                                validates: (Params, Rules) -> bool, model: Entity, params: Params, r: Replies)
    requires validates(params, RulesForAttributes(params, map[], repository.modelRules))
    requires r.begin.None? && r.saved.Some? && r.rollBack.None?
    ensures var s := UpdateSpec(modelClass, repository, validates, model, params, r);
      var rules := RulesForAttributes(params, map[], repository.modelRules);
      && s.effects == [Validated(params, rules), BeginTransaction, RepositorySave(Fill(model, params)), RollBack]
      && !Dispatches(s.effects)
      && s.result == Failure(OperationError(r.saved.value.message, HttpInternalServerError, r.saved.value))
  {
  }

  /** When the repository's delete throws, no event is dispatched and the caller gets an operation error. */
  lemma DeleteRepositoryFailure(modelClass: ClassName, model: Entity, r: Replies)
    requires r.guard.None? && r.begin.None? && r.deleted.Some? && r.rollBack.None?
    ensures var s := DeleteSpec(modelClass, model, r);
      && s.effects == [BeginTransaction, RepositoryDelete(model), RollBack]
      && !Dispatches(s.effects)
      && s.result == Failure(OperationError(r.deleted.value.message, HttpInternalServerError, r.deleted.value))
  {
  }

  /**
   * Events are dispatched inside the transaction, so an operation can fail
   * after its event went out, but only when the dispatcher itself or the
   * commit threw: a failure anywhere earlier dispatches nothing.
   */
  lemma FailureAfterDispatchIsLate(modelClass: ClassName, repository: Repository, validates: (Params, Rules) -> bool,
                                   model: Entity, params: Params, r: Replies)
    ensures var s := CreateSpec(modelClass, repository, validates, params, r);
      s.result.Failure? && Dispatches(s.effects) ==> r.dispatched.Some? || r.commit.Some?
    ensures var s := UpdateSpec(modelClass, repository, validates, model, params, r);
      s.result.Failure? && Dispatches(s.effects) ==> r.dispatched.Some? || r.commit.Some?
    ensures var s := DeleteSpec(modelClass, model, r);
      s.result.Failure? && Dispatches(s.effects) ==> r.dispatched.Some? || r.commit.Some?
  {
    if r.dispatched.None? && r.commit.None? {
      OnlyLateFailuresDispatch(modelClass, CreateModel(params), r);
      OnlyLateFailuresDispatch(modelClass, UpdateModel(model, params), r);
      OnlyLateFailuresDispatch(modelClass, DeleteModel(model), r);
    }
  }

  /** Within one transaction: a dispatched event and a failure need a throwing dispatcher or commit. */
  lemma OnlyLateFailuresDispatch(modelClass: ClassName, cb: Callback, r: Replies)
    requires r.dispatched.None? && r.commit.None?
    ensures var s := TransactionSpec(CallbackSpec(modelClass, cb, r), r);
      s.result.Failure? ==> !Dispatches(s.effects)
  {
    var run := CallbackSpec(modelClass, cb, r);
    var s := TransactionSpec(run, r);
    CallbackShape(modelClass, cb, r);
    if s.result.Failure? {
      if r.begin.Some? {
        assert s.effects == [BeginTransaction, RollBack];
      } else {
        assert |run.effects| == 1;
        assert s.effects == [BeginTransaction, run.effects[0], RollBack];
      }
    }
  }

  /**
   * A commit that throws after a successful closure: the event has been
   * dispatched, yet the transaction is rolled back and create fails with an
   * operation error chained to the commit's throwable.
   */
  lemma CreateCommitFailureAfterDispatch(modelClass: ClassName, repository: Repository,
                                         validates: (Params, Rules) -> bool, params: Params, r: Replies)
    requires validates(params, repository.modelRules)
    requires r.begin.None? && r.created.Success? && r.dispatched.None? && r.commit.Some? && r.rollBack.None?
    ensures var s := CreateSpec(modelClass, repository, validates, params, r);
      && s.effects == [Validated(params, repository.modelRules), BeginTransaction,
                       RepositoryCreate(Entity(modelClass, None, params)),
                       Dispatched(EntityCreated(r.created.value)), Commit(false), RollBack]
      && s.result == Failure(OperationError(r.commit.value.message, HttpInternalServerError, r.commit.value))
  {
  }

  /** The same for update: the filled entity was announced, then the commit threw. */
  lemma UpdateCommitFailureAfterDispatch(modelClass: ClassName, repository: Repository,
                                         validates: (Params, Rules) -> bool, model: Entity, params: Params, r: Replies)
    requires validates(params, RulesForAttributes(params, map[], repository.modelRules))
    requires r.begin.None? && r.saved.None? && r.dispatched.None? && r.commit.Some? && r.rollBack.None?
    ensures var s := UpdateSpec(modelClass, repository, validates, model, params, r);
      && s.effects == [Validated(params, RulesForAttributes(params, map[], repository.modelRules)), BeginTransaction,
                       RepositorySave(Fill(model, params)), Dispatched(EntityUpdated(Fill(model, params))),
                       Commit(false), RollBack]
      && s.result == Failure(OperationError(r.commit.value.message, HttpInternalServerError, r.commit.value))
  {
  }

  /** The same for delete: the deletion was announced, then the commit threw. */
  lemma DeleteCommitFailureAfterDispatch(modelClass: ClassName, model: Entity, r: Replies)
    requires model.key.Some?
    requires r.guard.None? && r.begin.None? && r.deleted.None? && r.dispatched.None? && r.commit.Some? && r.rollBack.None?
    ensures var s := DeleteSpec(modelClass, model, r);
      && s.effects == [BeginTransaction, RepositoryDelete(model), Dispatched(EntityDeleted(modelClass, model.key.value)),
                       Commit(false), RollBack]
      && s.result == Failure(OperationError(r.commit.value.message, HttpInternalServerError, r.commit.value))
  {
  }

  /**
   * Created and updated events record the class of the entity they carry;
   * a deleted event records the service's model class.
   */
  lemma AnnouncedModelClass(modelClass: ClassName, cb: Callback, r: Replies)
    requires |CallbackSpec(modelClass, cb, r).effects| == 2
    ensures var e := CallbackSpec(modelClass, cb, r).effects[1];
      && e.Dispatched?
      && e.event.ModelClass() == (match cb
                                  case CreateModel(_) => r.created.value.cls
                                  case UpdateModel(m, _) => m.cls
                                  case DeleteModel(_) => modelClass)
  {
  }

  /** A validation followed by a transaction leaves each transaction it began closed. */
  lemma AfterValidationBalanced(v: Check, run: Run, r: Replies)
    requires v.effect.Validated? && Connectionless(run.effects)
    ensures Balanced(AfterValidation(v, TransactionSpec(run, r)).effects)
  {
    SingleCallBalanced(v.effect);
    TransactionBalanced(run, r);
    if v.error.None? {
      BalancedAppend([v.effect], TransactionSpec(run, r).effects);
    }
  }

  /** create leaves each transaction it began closed, whatever the collaborators answer. */
  lemma CreateBalanced(modelClass: ClassName, repository: Repository,
                       validates: (Params, Rules) -> bool, params: Params, r: Replies)
    ensures Balanced(CreateSpec(modelClass, repository, validates, params, r).effects)
  {
    CallbackShape(modelClass, CreateModel(params), r);
    AfterValidationBalanced(ValidateSpec(validates, repository.modelRules, params, None),
                            CallbackSpec(modelClass, CreateModel(params), r), r);
  }

  /** update leaves each transaction it began closed, whatever the collaborators answer. */
  lemma UpdateBalanced(modelClass: ClassName, repository: Repository,
                       validates: (Params, Rules) -> bool, model: Entity, params: Params, r: Replies)
    ensures Balanced(UpdateSpec(modelClass, repository, validates, model, params, r).effects)
  {
    var rules := RulesForAttributes(params, map[], repository.modelRules);
    CallbackShape(modelClass, UpdateModel(model, params), r);
    AfterValidationBalanced(ValidateSpec(validates, repository.modelRules, params, Some(rules)),
                            CallbackSpec(modelClass, UpdateModel(model, params), r), r);
  }

  /** delete leaves each transaction it began closed, whatever the collaborators answer. */
  lemma DeleteBalanced(modelClass: ClassName, model: Entity, r: Replies)
    ensures Balanced(DeleteSpec(modelClass, model, r).effects)
  {
    if r.guard.Some? {
      var none: seq<Effect> := [];
      assert none[..0] == none;
    } else {
      CallbackShape(modelClass, DeleteModel(model), r);
      TransactionBalanced(CallbackSpec(modelClass, DeleteModel(model), r), r);
    }
  }

  // ---------------------------------------------------------------------------
  // The service object

  class EntityService {
    /** The class of the entities this service creates and announces deletions for. */
    const modelClass: ClassName
    /** The repository injected at construction. */
    const repository: Repository
    /** The validator: whether data passes the given rules. */
    const validates: (Params, Rules) -> bool
    /** Every call made so far to the validator, the connection, the repository and the dispatcher. */
    var trace: seq<Effect>

    ghost predicate Valid()
      reads this
    {
      Balanced(trace)
    }

    constructor (className: ClassName, repository: Repository, validates: (Params, Rules) -> bool)
      ensures this.modelClass == className && this.repository == repository && this.validates == validates
      ensures trace == [] && Valid()
    {
      this.modelClass := className;
      this.repository := repository;
      this.validates := validates;
      trace := [];
      new;
      assert trace[..0] == [];
    }

    /** getRepository: the repository injected at construction, unchanged. */
    function GetRepository(): (r: Repository)
      ensures r == repository
    {
      repository
    }

    /** validate: one validator call with the given rules, or the model's when none are given. */
    method Validate(data: Params, rules: Option<Rules>) returns (error: Option<Error>)
      requires Valid()
      modifies this
      ensures Valid()
      ensures var v := ValidateSpec(validates, repository.modelRules, data, rules);
        trace == old(trace) + [v.effect] && error == v.error
    {
      var used := if rules.Some? then rules.value else repository.modelRules;
      SingleCallBalanced(Validated(data, used));
      BalancedAppend(trace, [Validated(data, used)]);
      trace := trace + [Validated(data, used)];
      if !validates(data, used) {
        error := Some(ValidationError(data, used));
      } else {
        error := None;
      }
    }

    /** The body of the closure passed to handleTransaction. */
    method RunCallback(cb: Callback, r: Replies) returns (result: Result<Option<Entity>, Throwable>)
      modifies this
      ensures var run := CallbackSpec(modelClass, cb, r);
        trace == old(trace) + run.effects && result == run.result
    {
      var returned: Option<Entity>;
      match cb {
        case CreateModel(params) =>
          var model := Entity(modelClass, None, params);
          trace := trace + [RepositoryCreate(model)];
          if r.created.Failure? {
            return Failure(r.created.error);
          }
          trace := trace + [Dispatched(EntityCreated(r.created.value))];
          returned := Some(r.created.value);
        case UpdateModel(model, params) =>
          var filled := Fill(model, params);
          trace := trace + [RepositorySave(filled)];
          if r.saved.Some? {
            return Failure(r.saved.value);
          }
          trace := trace + [Dispatched(EntityUpdated(filled))];
          returned := Some(filled);
        case DeleteModel(model) =>
          var id := model.key;
          trace := trace + [RepositoryDelete(model)];
          if r.deleted.Some? {
            return Failure(r.deleted.value);
          }
          if id.None? {
            return Failure(Throwable(TypeErrorClass, NullIdMessage, 0));
          }
          trace := trace + [Dispatched(EntityDeleted(modelClass, id.value))];
          returned := None;
      }
      if r.dispatched.Some? {
        return Failure(r.dispatched.value);
      }
      result := Success(returned);
    }

    /** The catch block of handleTransaction: roll back, then wrap the cause. */
    method RollBackWith(cause: Throwable, r: Replies) returns (result: Result<Option<Entity>, Error>)
      modifies this
      ensures trace == old(trace) + [RollBack] && result == Abort([], cause, r).result
    {
      trace := trace + [RollBack];
      if r.rollBack.Some? {
        result := Failure(Escaped(r.rollBack.value));
      } else {
        result := Failure(OperationError(cause.message, HttpInternalServerError, cause));
      }
    }

    /** handleTransaction: begin, run the closure, commit; on any throwable roll back and wrap it. */
    method HandleTransaction(cb: Callback, r: Replies) returns (result: Result<Option<Entity>, Error>)
      requires Valid()
      modifies this
      ensures Valid()
      ensures var s := TransactionSpec(CallbackSpec(modelClass, cb, r), r);
        trace == old(trace) + s.effects && result == s.result
    {
      ghost var before := trace;
      ghost var run := CallbackSpec(modelClass, cb, r);
      trace := trace + [BeginTransaction];
      if r.begin.Some? {
        result := RollBackWith(r.begin.value, r);
      } else {
        var returned := RunCallback(cb, r);
        if returned.Failure? {
          result := RollBackWith(returned.error, r);
        } else if r.commit.Some? {
          trace := trace + [Commit(false)];
          result := RollBackWith(r.commit.value, r);
        } else {
          trace := trace + [Commit(true)];
          result := Success(returned.value);
        }
      }
      assert trace == before + TransactionSpec(run, r).effects;
      CallbackShape(modelClass, cb, r);
      TransactionBalanced(run, r);
      BalancedAppend(before, TransactionSpec(run, r).effects);
    }

    /** create: validate against the model's rules, then store and announce a new entity in a transaction. */
    method Create(params: Params, r: Replies) returns (result: Result<Entity, Error>)
      requires Valid()
      modifies this
      ensures Valid()
      ensures var s := CreateSpec(modelClass, repository, validates, params, r);
        && trace == old(trace) + s.effects
        && (result.Success? <==> s.result.Success?)
        && (result.Success? ==> s.result.value == Some(result.value))
        && (result.Failure? ==> s.result.error == result.error)
    {
      var invalid := Validate(params, None);
      if invalid.Some? {
        return Failure(invalid.value);
      }
      var returned := HandleTransaction(CreateModel(params), r);
      if returned.Failure? {
        result := Failure(returned.error);
      } else {
        result := Success(returned.value.value);
      }
    }

    /** update: validate the given fields only, then fill, save and announce the entity in a transaction. */
    method Update(model: Entity, params: Params, r: Replies) returns (result: Result<Entity, Error>)
      requires Valid()
      modifies this
      ensures Valid()
      ensures var s := UpdateSpec(modelClass, repository, validates, model, params, r);
        && trace == old(trace) + s.effects
        && (result.Success? <==> s.result.Success?)
        && (result.Success? ==> s.result.value == Some(result.value))
        && (result.Failure? ==> s.result.error == result.error)
    {
      var invalid := Validate(params, Some(RulesForAttributes(params, map[], repository.modelRules)));
      if invalid.Some? {
        return Failure(invalid.value);
      }
      var returned := HandleTransaction(UpdateModel(model, params), r);
      if returned.Failure? {
        result := Failure(returned.error);
      } else {
        result := Success(returned.value.value);
      }
    }

    /** delete: run the guard hook, then delete and announce the entity's key in a transaction. */
    method Delete(model: Entity, r: Replies) returns (error: Option<Error>)
      requires Valid()
      modifies this
      ensures Valid()
      ensures var s := DeleteSpec(modelClass, model, r);
        && trace == old(trace) + s.effects
        && (error.None? <==> s.result.Success?)
        && (error.Some? ==> s.result.error == error.value)
    {
      if r.guard.Some? {
        return Some(Escaped(r.guard.value));
      }
      var returned := HandleTransaction(DeleteModel(model), r);
      error := if returned.Failure? then Some(returned.error) else None;
    }
  }
}
