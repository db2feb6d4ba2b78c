/**
 * What a handler writes back: an error handed to `ErrorResponse`, or a JSON
 * body with its status (and, for a created movie, a `Location` header).
 */
module Replies {
  import opened Wrappers
  import opened Models
  import opened Errors

  /** The pagination metadata `FindAll` returns, by field name; the filter package is not part of this model. */
  type Metadata = map<string, int>

  datatype Payload =
    | MovieBody(movie: Movie)
    | MoviesBody(movies: seq<Movie>, metadata: Metadata)
    | MessageBody(message: string)
    | UserBody(user: User)

  datatype Reply =
    | Failed(rejection: Rejection)
    | Answered(status: int, payload: Payload, location: Option<string>)

  /** The status on the wire, where the constructor that produced it is modelled. */
  function StatusOf(reply: Reply): (s: Option<int>)
    ensures reply.Answered? ==> s == Some(reply.status)
    ensures reply.Failed? && reply.rejection.NotFound? ==> s == Some(StatusNotFound)
    ensures reply.Failed? && reply.rejection.BadRequest? ==> s == Some(StatusBadRequest)
    ensures reply.Failed? && reply.rejection.NotAllowed? ==> s == Some(StatusMethodNotAllowed)
  {
    match reply
    case Answered(status, _, _) => Some(status)
    case Failed(rejection) =>
      match rejection.Built()
      case Some(err) => Some(ErrorResponse(err).status)
      case None => None
  }
}
