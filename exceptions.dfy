/** The Python exceptions the modelled code raises, as values: an exception class and the
    message it was instantiated with. */
module Exceptions {

  datatype ExcKind =
    | Exception
    | TypeError
    | ValueError
    | FileNotFoundError
    | IsADirectoryError
    | OverflowError
    // the subclasses of sqlite3.Error that the modelled statements can raise
    | OperationalError
    | IntegrityError
    | ProgrammingError
    // pandas.errors.DatabaseError, a subclass of OSError and not of sqlite3.Error
    | DatabaseError

  /** Whether an `except sqlite3.Error` clause catches this kind. */
  predicate IsSqliteError(k: ExcKind)
  {
    k.OperationalError? || k.IntegrityError? || k.ProgrammingError?
  }

  datatype PyException = PyException(kind: ExcKind, msg: string)
}
