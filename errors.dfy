/** The exceptions the core throws or catches, as values. */
module Errors {

  datatype ErrorKind =
    | Authentication      // AuthenticationException
    | CommandExecute      // CommandExecuteException
    | WrongArgument       // WrongArgumentException
    | Remove              // RemoveException
    | NumberFormat        // NumberFormatException
    | IllegalArgument     // IllegalArgumentException (unknown enum constant)
    | EmptyCollection     // EmptyCollectionException
    | UnknownCommand      // UnknownCommandException
    | FileNotFound        // FileNotFoundException
    | EmptyStack          // EmptyStackException (java.util.Stack.pop on an empty stack)
    | Timeout             // TimeoutException

  /**
   * A thrown exception: its class and the argument its constructor was given.
   * Lab7's own exception classes put a fixed per-class prefix in front of that
   * argument (AuthenticationException adds "Ошибка авторизации: ", for one), so
   * getMessage(), which the client prints, is that prefix, determined by `kind`,
   * followed by `message`.
   */
  datatype Error = Error(kind: ErrorKind, message: string)
}
