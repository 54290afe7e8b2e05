/**
 * What travels between client and server: a request names a command, carries a
 * body of string arguments (optionally with a ticket), the sender's credentials
 * and an id; a response is one tagged record covering the plain, broadcast,
 * error and credential-carrying responses.
 */
module Network {
  import opened Wrappers
  import opened Data
  import opened Errors

  /** The request's UUID; only equality matters. */
  type RequestId = nat

  datatype RequestBody =
    | Plain(args: seq<string>)
    | WithTicket(args: seq<string>, ticket: Ticket)

  datatype Request = Request(commandName: string, body: RequestBody, auth: Option<AuthCredentials>, requestId: RequestId)

  datatype ResponseKind = Normal | Broadcast

  /**
   * `shown` is the ticket whose toString() ends the message, when the handler
   * appends one; `error` is the exception of an error response; `auth` the
   * credentials a login or registration returns.
   */
  datatype Response = Response(
    kind: ResponseKind,
    message: string,
    tickets: seq<Ticket>,
    shown: Option<Ticket>,
    requestId: Option<RequestId>,
    error: Option<Error>,
    auth: Option<AuthCredentials>)

  const ServerError: string := "Сервер ответил с ошибкой."

  /** `new Response(message)`, with or without the request id. */
  function Reply(message: string, id: Option<RequestId>): Response
  {
    Response(Normal, message, [], None, id, None, None)
  }

  /** `new Response(message, tickets)`. */
  function ReplyWithTickets(message: string, tickets: seq<Ticket>): Response
  {
    Response(Normal, message, tickets, None, None, None, None)
  }

  /** `new Response(prefix + ticket)`: the message ends with the ticket's text. */
  function ReplyShowing(prefix: string, ticket: Ticket, id: Option<RequestId>): Response
  {
    Response(Normal, prefix, [], Some(ticket), id, None, None)
  }

  /** `new ResponseWithException(e)`, with or without the request id. */
  function ErrorReply(e: Error, id: Option<RequestId>): Response
  {
    Response(Normal, ServerError, [], None, id, Some(e), None)
  }

  predicate IsErrorReply(r: Response)
  {
    r.error.Some?
  }
}
