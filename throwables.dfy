/** What the two services know about PHP classes and throwables. */
module Throwables {

  /** A fully qualified PHP class name; compared as an opaque key. */
  type ClassName = string

  /** Base class every model class must strictly extend. */
  const ModelClass: ClassName := "Illuminate\\Database\\Eloquent\\Model"
  /** Interface every entity service class must implement. */
  const IEntityServiceClass: ClassName := "Saritasa\\LaravelEntityServices\\Contracts\\IEntityService"
  /** The default entity service. */
  const EntityServiceClass: ClassName := "Saritasa\\LaravelEntityServices\\Services\\EntityService"
  /** The only failure the factory wraps. */
  const RepositoryExceptionClass: ClassName := "Saritasa\\LaravelRepositories\\Exceptions\\RepositoryException"
  /** Raised by PHP when an argument does not have the declared type. */
  const TypeErrorClass: ClassName := "TypeError"

  /** Any `Throwable` a collaborator may raise: its class, message and code. */
  datatype Throwable = Throwable(cls: ClassName, message: string, code: int)
}
