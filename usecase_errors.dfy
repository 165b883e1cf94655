/** The sentinel errors shared by the use cases (internal/usecases/errors.go). */
module UseCaseErrors {
  datatype UseCaseError =
    | CoffeeEntryNotFound
    | UserNotFound
    | InvalidInput
    | Unauthorized
    | Conflict
    | InternalError
    | NotFound
    | EntryAlreadyExists
  {
    /** The text `errors.New` was given. */
    function Message(): (m: string)
      ensures m != ""
    {
      match this
      case CoffeeEntryNotFound => "coffee entry not found"
      case UserNotFound => "user not found"
      case InvalidInput => "invalid input"
      case Unauthorized => "unauthorized"
      case Conflict => "conflict"
      case InternalError => "internal error"
      case NotFound => "not found"
      case EntryAlreadyExists => "entry already exists"
    }
  }

  /** Every sentinel has its own text, so callers comparing messages cannot confuse two of them. */
  lemma MessagesDistinct(e: UseCaseError, f: UseCaseError)
    requires e.Message() == f.Message()
    ensures e == f
  {
  }
}
