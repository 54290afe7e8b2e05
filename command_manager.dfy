/**
 * The command registry: which names exist, how an input line becomes a request
 * (name, packaged body, credentials) and how a request is dispatched to its handler.
 */
module Dispatch {
  import opened Wrappers
  import opened Data
  import opened Errors
  import opened Ids
  import opened Comparators
  import opened Collection
  import opened Text
  import opened Network
  import opened Commands

  datatype CommandName =
    | Help | Login | Register | Info | SendMessage | Show | Add | Update | RemoveById
    | Clear | RemoveHead | RemoveLower | MaxByCreationDate | FilterByType | AddIfMax | AverageOfPrice

  function Name(c: CommandName): string
  {
    match c
    case Help => "help"
    case Login => "login"
    case Register => "register"
    case Info => "info"
    case SendMessage => "send_message"
    case Show => "show"
    case Add => "add"
    case Update => "update"
    case RemoveById => "remove_by_id"
    case Clear => "clear"
    case RemoveHead => "remove_head"
    case RemoveLower => "remove_lower"
    case MaxByCreationDate => "max_by_creation_date"
    case FilterByType => "filter_by_type"
    case AddIfMax => "add_if_max"
    case AverageOfPrice => "average_of_price"
  }

  /** The registry the constructor builds, name by name in registration order. */
  const Registry: map<string, CommandName> := map[
    "help" := Help, "login" := Login, "register" := Register, "info" := Info,
    "send_message" := SendMessage, "show" := Show, "add" := Add, "update" := Update,
    "remove_by_id" := RemoveById, "clear" := Clear, "remove_head" := RemoveHead,
    "remove_lower" := RemoveLower, "max_by_creation_date" := MaxByCreationDate,
    "filter_by_type" := FilterByType, "add_if_max" := AddIfMax, "average_of_price" := AverageOfPrice]

  /** Every command is registered under its own name. */
  lemma RegistryNamesEveryCommand(c: CommandName)
    ensures Name(c) in Registry && Registry[Name(c)] == c
  {
    match c
    case Help =>
    case Login =>
    case Register =>
    case Info =>
    case SendMessage =>
    case Show =>
    case Add =>
    case Update =>
    case RemoveById =>
    case Clear =>
    case RemoveHead =>
    case RemoveLower =>
    case MaxByCreationDate =>
    case FilterByType =>
    case AddIfMax =>
    case AverageOfPrice =>
  }

  /** Every registered name is the name of the command it maps to. */
  lemma RegistryHoldsOnlyNames(n: string)
    requires n in Registry
    ensures Name(Registry[n]) == n
  {
  }

  /** Different commands have different names. */
  lemma NamesAreDistinct(a: CommandName, b: CommandName)
    ensures Name(a) == Name(b) ==> a == b
  {
    if Name(a) == Name(b) {
      assert Name(a)[..|Name(a)|] == Name(b)[..|Name(b)|];
    }
  }

  /** The handlers whose `execute` this model does not compute: their response is an input. */
  predicate IsExternal(c: CommandName)
  {
    c == Help || c == Login || c == Register || c == Info || c == AverageOfPrice
  }

  /** The commands whose packageBody refuses every argument. */
  predicate TakesNoArguments(c: CommandName)
  {
    c == Help || c == Info || c == AverageOfPrice || c == Show || c == Clear || c == RemoveHead || c == MaxByCreationDate
  }

  /** What the client reads while packaging: a generated ticket (or why generation failed), a login and a password. */
  datatype ConsoleInput = ConsoleInput(generated: Result<Ticket, string>, login: string, password: string)

  /** Each command's packageBody. */
  function PackageBody(c: CommandName, args: seq<string>, input: ConsoleInput): (r: Result<RequestBody, Error>)
    ensures r.Success? ==> ArgumentsSuffice(c, r.value)
    ensures TakesNoArguments(c) ==> (r.Success? <==> args == []) && (r.Failure? ==> r.error == NoArgumentsExpected)
  {
    match c
    case Help => PackageWithoutArguments(args)
    case Info => PackageWithoutArguments(args)
    case AverageOfPrice => PackageWithoutArguments(args)
    case Login => PackageCredentials(args, input.login, input.password)
    case Register => PackageCredentials(args, input.login, input.password)
    case SendMessage => PackageOneArgument(args)
    case Show => PackageWithoutArguments(args)
    case Clear => PackageWithoutArguments(args)
    case RemoveHead => PackageWithoutArguments(args)
    case MaxByCreationDate => PackageWithoutArguments(args)
    case Add => PackageGeneratedTicket(args, input.generated)
    case AddIfMax => PackageGeneratedTicket(args, input.generated)
    case RemoveLower => PackageGeneratedTicket(args, input.generated)
    case Update => PackageUpdate(args, input.generated)
    case RemoveById => PackageIdArgument(args)
    case FilterByType => PackageTypeArgument(args)
  }

  /** help, info and average_of_price refuse an argument, as show and the others do. */
  lemma ArgumentlessPackagingRefuses(input: ConsoleInput)
    ensures PackageBody(Help, ["x"], input) == Failure(NoArgumentsExpected)
    ensures PackageBody(Info, ["x"], input) == Failure(NoArgumentsExpected)
    ensures PackageBody(AverageOfPrice, ["x"], input) == Failure(NoArgumentsExpected)
    ensures PackageBody(Help, [], input).Success?
  {
  }

  // ---------------------------------------------------------------- the input line

  /**
   * The command name and arguments of an input line: the stripped and trimmed
   * line is cut at its first run of `\s`; the rest is split on runs of `\s`,
   * except for send_message, whose rest is kept whole as its only argument.
   */
  function SplitCommandLine(line: string): (r: (string, seq<string>))
    ensures NoSpace(r.0)
    ensures r.0 != "send_message" ==> forall k :: 0 <= k < |r.1| ==> NoSpace(r.1[k])
    ensures r.0 == "send_message" ==> |r.1| <= 1
  {
    var parts := SplitWhitespaceTwo(Trim(Strip(line)));
    var name := parts[0];
    if name != "send_message" then (name, if |parts| > 1 then SplitWhitespace(parts[1]) else [])
    else (name, if |parts| > 1 then [parts[1]] else [])
  }

  /**
   * The name is the first word of the stripped and trimmed line (empty for a
   * blank line); any other command gets the remaining words as its arguments,
   * and send_message gets the rest of the line, which holds the remaining words.
   */
  lemma SplitCommandLineIsWords(line: string)
    ensures var r, w := SplitCommandLine(line), Words(Trim(Strip(line)));
      && r.0 == (if w == [] then "" else w[0])
      && (r.0 != "send_message" ==> r.1 == if w == [] then [] else w[1..])
      && (r.0 == "send_message" ==> (r.1 == [] <==> |w| <= 1) && (r.1 != [] ==> Words(r.1[0]) == w[1..]))
  {
    var t := Trim(Strip(line));
    var r, w := SplitCommandLine(line), Words(t);
    var parts := SplitWhitespaceTwo(t);
    var rest := if |parts| > 1 then SplitWhitespace(parts[1]) else [];
    assert r.0 == parts[0];
    assert r.0 != "send_message" ==> r.1 == rest;
    assert r.0 == "send_message" ==> r.1 == (if |parts| > 1 then [parts[1]] else []);
    assert |parts| == 1 ==> parts[0] == t && w == if t == [] then [] else [t] by {
      StripTrimHasNoEdgeSpace(line);
      WordsOfCleanLine(t, parts);
    }
    assert |parts| == 2 ==> Words(parts[1]) != [] && w == [parts[0]] + Words(parts[1]) && rest == Words(parts[1]) by {
      StripTrimHasNoEdgeSpace(line);
      WordsOfCleanLine(t, parts);
    }
    CommandOfParts(parts, t, w, r, rest);
  }

  /** The sequence reasoning of SplitCommandLineIsWords, over the pieces it names. */
  lemma CommandOfParts(parts: seq<string>, t: string, w: seq<string>, r: (string, seq<string>), rest: seq<string>)
    requires 1 <= |parts| <= 2
    requires |parts| == 1 ==> parts[0] == t && w == if t == [] then [] else [t]
    requires |parts| == 2 ==> Words(parts[1]) != [] && w == [parts[0]] + Words(parts[1]) && rest == Words(parts[1])
    requires r.0 == parts[0]
    requires r.0 != "send_message" ==> r.1 == (if |parts| > 1 then rest else [])
    requires r.0 == "send_message" ==> r.1 == (if |parts| > 1 then [parts[1]] else [])
    ensures r.0 == (if w == [] then "" else w[0])
    ensures r.0 != "send_message" ==> r.1 == if w == [] then [] else w[1..]
    ensures r.0 == "send_message" ==> (r.1 == [] <==> |w| <= 1) && (r.1 != [] ==> Words(r.1[0]) == w[1..])
  {
    if |parts| == 2 {
      assert w[1..] == Words(parts[1]);
    }
  }

  /** A line without edge separators: its first word, then the words of the non-empty rest. */
  lemma WordsOfCleanLine(t: string, parts: seq<string>)
    requires t != [] ==> !IsRegexSpace(t[0]) && !IsRegexSpace(t[|t| - 1])
    requires parts == SplitWhitespaceTwo(t)
    ensures |parts| == 1 ==> Words(t) == if t == [] then [] else [t]
    ensures |parts| == 2 ==> parts[0] != [] && parts[1] != [] && !IsRegexSpace(parts[1][0])
    ensures |parts| == 2 ==> Words(t) == [parts[0]] + Words(parts[1])
    ensures |parts| == 2 ==> SplitWhitespace(parts[1]) == Words(parts[1]) && Words(parts[1]) != []
  {
    if |parts| == 1 {
      WordsOfToken(t);
      assert [t][1..] == [];
    } else {
      CleanLineParts(t, parts);
      CleanLineWords(t, parts);
      SplitOfCleanRest(parts[1]);
    }
  }

  /** Cut at its first separator run, a line without edge separators has a word on each side. */
  lemma CleanLineParts(t: string, parts: seq<string>)
    requires t != [] ==> !IsRegexSpace(t[0]) && !IsRegexSpace(t[|t| - 1])
    requires parts == SplitWhitespaceTwo(t) && |parts| == 2
    ensures parts[0] != [] && parts[1] != [] && !IsRegexSpace(parts[1][0])
  {
  }

  lemma CleanLineWords(t: string, parts: seq<string>)
    requires parts == SplitWhitespaceTwo(t) && |parts| == 2 && parts[0] != []
    ensures Words(t) == [parts[0]] + Words(parts[1])
  {
    var i := FirstSpace(t);
    var j := i + LeadingCount(t[i..], IsRegexSpace);
    assert parts[0] == t[..i] && parts[1] == t[j..];
    WordsAtSeparator(t, i, j);
    assert NonEmpty([parts[0]]) == [parts[0]] by { assert [parts[0]][1..] == []; }
  }

  /** Split on separator runs, a text that starts with a word yields exactly its words, and it has some. */
  lemma SplitOfCleanRest(u: string)
    requires u != [] && !IsRegexSpace(u[0])
    ensures SplitWhitespace(u) == Words(u) && Words(u) != []
  {
    var r := SplitWhitespace(u);
    NonEmptyKeepsNonEmpty(r);
    WordsFromOpenWord(u[1..], [u[0]]);
  }

  /** A word the console can carry unchanged: non-empty, no whitespace and no control character. */
  predicate IsPlainToken(t: string)
  {
    t != [] && forall k :: 0 <= k < |t| ==> !IsJavaWhitespace(t[k]) && !IsAtMostSpace(t[k])
  }

  lemma {:induction false} JoinEdges(ts: seq<string>)
    requires |ts| >= 1 && forall k :: 0 <= k < |ts| ==> ts[k] != []
    ensures |Join(ts)| >= 1 && Join(ts)[0] == ts[0][0]
    ensures Join(ts)[|Join(ts)| - 1] == ts[|ts| - 1][|ts[|ts| - 1]| - 1]
  {
    if |ts| > 1 {
      JoinEdges(ts[1..]);
      assert Join(ts) == ts[0] + " " + Join(ts[1..]);
    }
  }

  /** Text that strip() and trim() leave alone. */
  lemma PlainEdgesSurviveStripTrim(s: string)
    requires s != [] && !IsJavaWhitespace(s[0]) && !IsAtMostSpace(s[0])
    requires !IsJavaWhitespace(s[|s| - 1]) && !IsAtMostSpace(s[|s| - 1])
    ensures Trim(Strip(s)) == s
  {
    StripIdempotent(s);
    TrimIdempotent(s);
  }

  /** A line whose edges are plain splits at its first run of spaces, after strip and trim change nothing. */
  lemma CleanLineSplits(line: string, name: string, rest: seq<string>)
    requires line != [] && !IsJavaWhitespace(line[0]) && !IsAtMostSpace(line[0])
    requires !IsJavaWhitespace(line[|line| - 1]) && !IsAtMostSpace(line[|line| - 1])
    requires name != "send_message"
    requires rest == [] ==> SplitWhitespaceTwo(line) == [name]
    requires rest != [] ==> SplitWhitespaceTwo(line) == [name, Join(rest)] && SplitWhitespace(Join(rest)) == rest
    ensures SplitCommandLine(line) == (name, rest)
  {
    PlainEdgesSurviveStripTrim(line);
  }

  /** A plain word's first and last characters survive strip and trim. */
  lemma PlainTokenEdges(t: string)
    requires IsPlainToken(t)
    ensures !IsJavaWhitespace(t[0]) && !IsAtMostSpace(t[0])
    ensures !IsJavaWhitespace(t[|t| - 1]) && !IsAtMostSpace(t[|t| - 1])
  {
  }

  lemma PlainTokenIsToken(t: string)
    requires IsPlainToken(t)
    ensures IsToken(t)
  {
    forall k | 0 <= k < |t| ensures !IsRegexSpace(t[k]) {
      assert !IsAtMostSpace(t[k]);
    }
  }

  lemma JoinOfWordAndRest(name: string, args: seq<string>)
    requires args != []
    ensures Join([name] + args) == name + " " + Join(args)
  {
    assert ([name] + args)[1..] == args;
  }

  /** A word, one space and words joined by single spaces: the limit-2 split cuts after the first word. */
  lemma WordAndArgumentsParts(name: string, args: seq<string>)
    requires IsPlainToken(name) && args != []
    requires forall k :: 0 <= k < |args| ==> IsToken(args[k])
    ensures SplitWhitespaceTwo(name + " " + Join(args)) == [name, Join(args)]
  {
    PlainTokenIsToken(name);
    JoinStartsWithToken(args);
    SplitTwoAtSingleSpace(name, Join(args));
  }

  /** Such a line begins and ends with a plain character. */
  lemma WordAndArgumentsEdges(name: string, args: seq<string>)
    requires IsPlainToken(name) && args != []
    requires forall k :: 0 <= k < |args| ==> IsPlainToken(args[k])
    ensures var line := name + " " + Join(args);
      line != [] && !IsJavaWhitespace(line[0]) && !IsAtMostSpace(line[0])
      && !IsJavaWhitespace(line[|line| - 1]) && !IsAtMostSpace(line[|line| - 1])
  {
    var line := name + " " + Join(args);
    assert line[0] == name[0];
    JoinEdges(args);
    assert line[|line| - 1] == Join(args)[|Join(args)| - 1];
  }

  lemma CommandLineOfWordAndArguments(name: string, args: seq<string>)
    requires IsPlainToken(name) && name != "send_message" && args != []
    requires forall k :: 0 <= k < |args| ==> IsPlainToken(args[k])
    ensures SplitCommandLine(name + " " + Join(args)) == (name, args)
  {
    forall k | 0 <= k < |args| ensures IsToken(args[k]) {
      PlainTokenIsToken(args[k]);
    }
    WordAndArgumentsParts(name, args);
    SplitOfJoin(args);
    WordAndArgumentsEdges(name, args);
    CleanLineSplits(name + " " + Join(args), name, args);
  }

  /**
   * A line of plain words separated by single spaces gives the first word as the
   * name and the other words as the arguments, for every command but send_message.
   */
  lemma CommandLineOfWords(name: string, args: seq<string>)
    requires IsPlainToken(name) && name != "send_message"
    requires forall k :: 0 <= k < |args| ==> IsPlainToken(args[k])
    ensures SplitCommandLine(Join([name] + args)) == (name, args)
  {
    if args == [] {
      assert Join([name] + args) == name;
      CommandLineOfOneWord(name);
    } else {
      JoinOfWordAndRest(name, args);
      CommandLineOfWordAndArguments(name, args);
    }
  }

  lemma CommandLineOfOneWord(name: string)
    requires IsPlainToken(name) && name != "send_message"
    ensures SplitCommandLine(name) == (name, [])
  {
    PlainTokenIsToken(name);
    CleanLineSplits(name, name, []);
  }

  /** For send_message the whole rest of the line, inner spaces included, is the one argument. */
  lemma SendMessageKeepsText(text: string)
    requires text != [] && !IsJavaWhitespace(text[0]) && !IsAtMostSpace(text[0])
    requires !IsJavaWhitespace(text[|text| - 1]) && !IsAtMostSpace(text[|text| - 1])
    ensures SplitCommandLine("send_message " + text) == ("send_message", [text])
  {
    var line := "send_message" + " " + text;
    assert line == "send_message " + text;
    PlainEdgesSurviveStripTrim(line);
    SplitTwoAtSingleSpace("send_message", text);
  }

  // ---------------------------------------------------------------- dispatch

  /**
   * What a handler needs of its request beyond what it checks itself: the
   * argument it reads without a length check, and the null-free fields its
   * comparator or filter dereferences.
   */
  predicate CanExecute(c: CommandName, st: Store, req: Request)
  {
    match c
    case Update => req.auth.Some? && req.body.WithTicket? ==> |req.body.args| >= 1
    case RemoveById => |req.body.args| >= 1
    case FilterByType => |req.body.args| >= 1 && AllTyped(st.tickets)
    case MaxByCreationDate => AllDated(st.tickets)
    case SendMessage => req.auth.Some? ==> |req.body.args| >= 1
    case AddIfMax =>
      req.body.WithTicket? ==> AllComparable(st.tickets) && (st.tickets != [] ==> Comparable(req.body.ticket))
    case RemoveLower => req.body.WithTicket? ==> AllComparable(st.tickets) && Comparable(req.body.ticket)
    case _ => true
  }

  /** The argument part of CanExecute. */
  predicate ArgumentsSuffice(c: CommandName, body: RequestBody)
  {
    c in {Update, RemoveById, FilterByType, SendMessage} ==> |body.args| >= 1
  }

  /** The handlers that only read the deque. */
  predicate IsReadOnly(c: CommandName)
  {
    IsExternal(c) || c == Show || c == FilterByType || c == MaxByCreationDate || c == SendMessage
  }

  /** The handler's outcome; the handlers not modelled answer `external` and leave the deque alone. */
  function RequestOutcome(c: CommandName, st: Store, req: Request, external: Response): (o: Outcome)
    requires CanExecute(c, st, req)
    ensures c != Add && c != AddIfMax ==> o.store.ids == st.ids
  {
    match c
    case Show => Outcome(st, ShowResponse(st.tickets))
    case FilterByType => Outcome(st, FilterByTypeResponse(st.tickets, req))
    case MaxByCreationDate => Outcome(st, MaxByCreationDateResponse(st.tickets))
    case SendMessage => Outcome(st, SendMessageResponse(req))
    case Add => AddOutcome(st, req)
    case AddIfMax => AddIfMaxOutcome(st, req)
    case Update => UpdateOutcome(st, req)
    case RemoveById => RemoveByIdOutcome(st, req)
    case RemoveHead => RemoveHeadOutcome(st, req)
    case RemoveLower => RemoveLowerOutcome(st, req)
    case Clear => ClearOutcome(st, req)
    case _ => Outcome(st, external)
  }

  /** The handlers not modelled answer with their own response and leave the deque and the allocator alone. */
  lemma ExternalHandlersAnswerThemselves(c: CommandName, st: Store, req: Request, external: Response)
    requires IsExternal(c)
    ensures CanExecute(c, st, req) && RequestOutcome(c, st, req, external) == Outcome(st, external)
  {
  }

  /** The read-only handlers keep the deque and the allocator. */
  lemma ReadOnlyHandlersKeepTheStore(c: CommandName, st: Store, req: Request, external: Response)
    requires IsReadOnly(c) && CanExecute(c, st, req)
    ensures RequestOutcome(c, st, req, external).store == st
  {
    if !IsExternal(c) {
      match c
      case Show =>
      case FilterByType =>
      case MaxByCreationDate =>
      case SendMessage =>
    }
  }

  class CommandManager {
    var commandList: map<string, CommandName>

    ghost predicate Valid()
      reads this
    {
      commandList == Registry
    }

    constructor ()
      ensures Valid()
    {
      commandList := map[];
      new;
      commandList := commandList["help" := Help];
      commandList := commandList["login" := Login];
      commandList := commandList["register" := Register];
      commandList := commandList["info" := Info];
      commandList := commandList["send_message" := SendMessage];
      commandList := commandList["show" := Show];
      commandList := commandList["add" := Add];
      commandList := commandList["update" := Update];
      commandList := commandList["remove_by_id" := RemoveById];
      commandList := commandList["clear" := Clear];
      commandList := commandList["remove_head" := RemoveHead];
      commandList := commandList["remove_lower" := RemoveLower];
      commandList := commandList["max_by_creation_date" := MaxByCreationDate];
      commandList := commandList["filter_by_type" := FilterByType];
      commandList := commandList["add_if_max" := AddIfMax];
      commandList := commandList["average_of_price" := AverageOfPrice];
    }

    /**
     * An unknown name fails with UnknownCommandException carrying the name; a
     * known one gives a request with that name, that command's packaged body,
     * the given credentials and the given id, or the packaging error.
     */
    function ConvertInputToCommandRequest(line: string, auth: Option<AuthCredentials>, id: RequestId, input: ConsoleInput)
      : (r: Result<Request, Error>)
      reads this
      requires Valid()
      ensures SplitCommandLine(line).0 !in Registry ==> r == Failure(Error(UnknownCommand, SplitCommandLine(line).0))
      ensures r.Success? ==>
        && r.value.commandName == SplitCommandLine(line).0 && r.value.commandName in Registry
        && r.value.auth == auth && r.value.requestId == id
        && PackageBody(commandList[r.value.commandName], SplitCommandLine(line).1, input) == Success(r.value.body)
      ensures r.Failure? && SplitCommandLine(line).0 in Registry ==>
        PackageBody(Registry[SplitCommandLine(line).0], SplitCommandLine(line).1, input) == Failure(r.error)
    {
      var (name, args) := SplitCommandLine(line);
      if name !in commandList then Failure(Error(UnknownCommand, name))
      else match PackageBody(commandList[name], args, input)
        case Failure(e) => Failure(e)
        case Success(body) => Success(Request(name, body, auth, id))
    }

    /**
     * A line that gives arguments to a command taking none (help, info,
     * average_of_price, show, clear, remove_head, max_by_creation_date)
     * builds no request: it fails with the packaging error.
     */
    lemma ArgumentsToArgumentlessCommandsAreRefused(line: string, auth: Option<AuthCredentials>, id: RequestId, input: ConsoleInput)
      requires Valid()
      requires SplitCommandLine(line).0 in commandList && TakesNoArguments(commandList[SplitCommandLine(line).0])
      requires SplitCommandLine(line).1 != []
      ensures ConvertInputToCommandRequest(line, auth, id, input) == Failure(NoArgumentsExpected)
    {
    }

    /** A request the client built always has the arguments its handler reads. */
    lemma BuiltRequestsHaveTheirArguments(line: string, auth: Option<AuthCredentials>, id: RequestId, input: ConsoleInput)
      requires Valid()
      ensures var r := ConvertInputToCommandRequest(line, auth, id, input);
        r.Success? ==> ArgumentsSuffice(commandList[r.value.commandName], r.value.body)
    {
      var (name, args) := SplitCommandLine(line);
    }

    method ExecuteRequest(cm: ServerCollectionManager, req: Request, external: Response) returns (resp: Response)
      requires Valid() && cm.Valid() && req.commandName in commandList
      requires CanExecute(commandList[req.commandName], cm.Snapshot(), req)
      modifies cm, cm.idManager
      ensures cm.Valid()
      ensures Outcome(cm.Snapshot(), resp) == RequestOutcome(commandList[req.commandName], old(cm.Snapshot()), req, external)
    {
      match commandList[req.commandName]
      case Show => resp := ShowResponse(cm.collection);
      case FilterByType => resp := FilterByTypeResponse(cm.collection, req);
      case MaxByCreationDate => resp := MaxByCreationDateResponse(cm.collection);
      case SendMessage => resp := SendMessageResponse(req);
      case Add => resp := ExecuteAdd(cm, req);
      case AddIfMax => resp := ExecuteAddIfMax(cm, req);
      case Update => resp := ExecuteUpdate(cm, req);
      case RemoveById => resp := ExecuteRemoveById(cm, req);
      case RemoveHead => resp := ExecuteRemoveHead(cm, req);
      case RemoveLower => resp := ExecuteRemoveLower(cm, req);
      case Clear => resp := ExecuteClear(cm, req);
      case _ => resp := external;
    }
  }
}
