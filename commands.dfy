/**
 * The command handlers. Each command has a `packageBody` check run on the client
 * (a function of the arguments) and an `execute` run on the server. Handlers that
 * change the collection are methods over ServerCollectionManager, each proved
 * equal to an outcome function over the deque and allocator state; the laws of the
 * outcome functions are their postconditions and the lemmas here.
 */
module Commands {
  import opened Wrappers
  import opened Data
  import opened Errors
  import opened Ids
  import opened Comparators
  import opened Collection
  import opened Text
  import opened Network

  const TicketExpected: Error := Error(CommandExecute, "Ожидался билет Ticket.")
  const NoArgumentsExpected: Error := Error(CommandExecute, "Команда не принимает аргументы.")
  const OneArgumentExpected: Error := Error(CommandExecute, "Команда принимает один обязательный аргумент.")

  function NotAuthorized(commandName: string): Error
  {
    Error(Authentication, "Команда " + commandName + " доступна только авторизованным пользователям.")
  }

  /** The new state of deque and allocator, and the response sent back. */
  datatype Outcome = Outcome(store: Store, response: Response)

  // ================================================================ packageBody

  /** The check of every command that takes no arguments and sends them as they are. */
  function PackageWithoutArguments(args: seq<string>): (r: Result<RequestBody, Error>)
    ensures r.Success? <==> args == []
    ensures r.Success? ==> r.value == Plain([])
    ensures r.Failure? ==> r.error == NoArgumentsExpected
  {
    if |args| != 0 then Failure(NoArgumentsExpected) else Success(Plain(args))
  }

  /** send_message: exactly one argument, the message text. */
  function PackageOneArgument(args: seq<string>): (r: Result<RequestBody, Error>)
    ensures r.Success? <==> |args| == 1
    ensures r.Success? ==> r.value == Plain(args)
    ensures r.Failure? ==> r.error == OneArgumentExpected
  {
    if |args| != 1 then Failure(OneArgumentExpected) else Success(Plain(args))
  }

  /** remove_by_id: exactly one argument that parses as an int. */
  function PackageIdArgument(args: seq<string>): (r: Result<RequestBody, Error>)
    ensures r.Success? <==> |args| == 1 && IsIntLiteral(args[0]) && MinInt32 <= LiteralValue(args[0]) <= MaxInt32
    ensures r.Success? ==> r.value == Plain(args)
    ensures |args| != 1 ==> r == Failure(OneArgumentExpected)
    ensures |args| == 1 && r.Failure? ==> r.error == Error(CommandExecute, NumberFormatError(args[0]).message)
  {
    if |args| != 1 then Failure(OneArgumentExpected)
    else match ParseInt(args[0])
      case Failure(e) => Failure(Error(CommandExecute, e.message))
      case Success(_) => Success(Plain(args))
  }

  /** filter_by_type: exactly one argument naming a ticket type in any case. */
  function PackageTypeArgument(args: seq<string>): (r: Result<RequestBody, Error>)
    ensures r.Success? <==> |args| == 1 && exists t :: TypeName(t) == ToUpper(args[0])
    ensures r.Success? ==> r.value == Plain(args)
    ensures |args| != 1 ==> r == Failure(OneArgumentExpected)
    ensures r.Failure? ==> r.error.kind == CommandExecute
  {
    if |args| != 1 then Failure(OneArgumentExpected)
    else match ParseTicketType(args[0])
      case Failure(e) => Failure(Error(CommandExecute, e.message))
      case Success(_) => Success(Plain(args))
  }

  /**
   * add, add_if_max, remove_lower: no arguments, then the interactively generated
   * ticket (`generated` is the ticket, or the message of the creation failure).
   */
  function PackageGeneratedTicket(args: seq<string>, generated: Result<Ticket, string>): (r: Result<RequestBody, Error>)
    ensures r.Success? <==> args == [] && generated.Success?
    ensures r.Success? ==> r.value == WithTicket([], generated.value)
    ensures args != [] ==> r == Failure(NoArgumentsExpected)
    ensures args == [] && generated.Failure? ==> r == Failure(Error(CommandExecute, generated.error))
  {
    if |args| != 0 then Failure(NoArgumentsExpected)
    else match generated
      case Failure(m) => Failure(Error(CommandExecute, m))
      case Success(t) => Success(WithTicket(args, t))
  }

  /** update: exactly one argument; the ticket is generated before the id is parsed. */
  function PackageUpdate(args: seq<string>, generated: Result<Ticket, string>): (r: Result<RequestBody, Error>)
    ensures r.Success? <==> |args| == 1 && generated.Success? && ParseInt(args[0]).Success?
    ensures r.Success? ==> r.value == WithTicket(args, generated.value)
    ensures |args| != 1 ==> r == Failure(OneArgumentExpected)
    ensures |args| == 1 && generated.Failure? ==> r == Failure(Error(CommandExecute, generated.error))
  {
    if |args| != 1 then Failure(OneArgumentExpected)
    else match generated
      case Failure(m) => Failure(Error(CommandExecute, m))
      case Success(t) =>
        match ParseInt(args[0])
        case Failure(e) => Failure(Error(CommandExecute, e.message))
        case Success(_) => Success(WithTicket(args, t))
  }

  /** login, register: no arguments, then the login and password read from the console. */
  function PackageCredentials(args: seq<string>, login: string, password: string): (r: Result<RequestBody, Error>)
    ensures r.Success? <==> args == []
    ensures r.Success? ==> r.value == Plain([login, password])
    ensures r.Failure? ==> r.error == NoArgumentsExpected
  {
    if |args| != 0 then Failure(NoArgumentsExpected) else Success(Plain([login, password]))
  }

  // ================================================================ read-only handlers

  /** show: the whole deque in order, or a note that it is empty. */
  function ShowResponse(tickets: seq<Ticket>): (r: Response)
    ensures r.error.None? && r.requestId.None? && r.kind == Normal
    ensures r.tickets == tickets
    ensures r.message == if tickets == [] then "Коллекция пуста." else "ЭЛЕМЕНТЫ КОЛЛЕКЦИИ:"
  {
    if |tickets| == 0 then Reply("Коллекция пуста.", None) else ReplyWithTickets("ЭЛЕМЕНТЫ КОЛЛЕКЦИИ:", tickets)
  }

  /** filter_by_type: the tickets of the named type, or a not-found note, or the parse error. */
  function FilterByTypeResponse(tickets: seq<Ticket>, req: Request): (r: Response)
    requires |req.body.args| >= 1 && AllTyped(tickets)
    ensures r.requestId.None?
    ensures ParseTicketType(req.body.args[0]).Failure? ==> r == ErrorReply(ParseTicketType(req.body.args[0]).error, None)
    ensures ParseTicketType(req.body.args[0]).Success? ==>
      var t := ParseTicketType(req.body.args[0]).value;
      && r.error.None?
      && r.tickets == OfType(tickets, t)
      && (forall x :: x in r.tickets <==> x in tickets && x.ticketType == Some(t))
      && r.message == if r.tickets == [] then "Элементов, соответствующих данному типу, не найдено."
                      else "ЭЛЕМЕНТЫ С ТИПОМ БИЛЕТА " + TypeName(t) + ":"
  {
    match ParseTicketType(req.body.args[0])
    case Failure(e) => ErrorReply(e, None)
    case Success(t) =>
      var found := OfType(tickets, t);
      forall x ensures x in found <==> x in tickets && x.ticketType == Some(t) {
        OfTypeMembers(tickets, t, x);
      }
      UpperOfName(t);
      if |found| == 0 then Reply("Элементов, соответствующих данному типу, не найдено.", None)
      else ReplyWithTickets("ЭЛЕМЕНТЫ С ТИПОМ БИЛЕТА " + ToUpper(TypeName(t)) + ":", found)
  }

  /** max_by_creation_date: the latest-created ticket, or the empty-collection error. */
  function MaxByCreationDateResponse(tickets: seq<Ticket>): (r: Response)
    requires AllDated(tickets)
    ensures r.requestId.None?
    ensures tickets == [] ==> r == ErrorReply(NoMaximum, None)
    ensures tickets != [] ==> r.error.None? && r.message == "МАКСИМАЛЬНЫЙ ЭЛЕМЕНТ ПО ДАТЕ СОЗДАНИЯ:\n"
    ensures tickets != [] ==> r.shown.Some? && r.shown.value in tickets
    ensures tickets != [] ==> forall i :: 0 <= i < |tickets| ==> CompareByDate(r.shown.value, tickets[i]) >= 0
    ensures tickets != [] ==>
      exists k :: 0 <= k < |tickets| && tickets[k] == r.shown.value && forall j :: 0 <= j < k ==> CompareByDate(tickets[j], r.shown.value) < 0
  {
    if |tickets| == 0 then ErrorReply(NoMaximum, None)
    else
      MaxByDateIsMaximum(tickets);
      MaxByDateIsFirst(tickets);
      ReplyShowing("МАКСИМАЛЬНЫЙ ЭЛЕМЕНТ ПО ДАТЕ СОЗДАНИЯ:\n", MaxByDate(tickets), None)
  }

  /** send_message: a broadcast of "username: text", or the authentication error. */
  function SendMessageResponse(req: Request): (r: Response)
    requires req.auth.Some? ==> |req.body.args| >= 1
    ensures r.requestId == Some(req.requestId)
    ensures req.auth.None? ==> r == ErrorReply(NotAuthorized(req.commandName), Some(req.requestId))
    ensures req.auth.Some? ==> r.kind == Broadcast && r.error.None?
    ensures req.auth.Some? ==> r.message == req.auth.value.username + ": " + req.body.args[0]
  {
    if req.auth.None? then ErrorReply(NotAuthorized(req.commandName), Some(req.requestId))
    else Response(Broadcast, req.auth.value.username + ": " + req.body.args[0], [], None, Some(req.requestId), None, None)
  }

  // ================================================================ add

  /** The ticket with the requesting user stamped on it as owner. */
  function Stamped(t: Ticket, username: string): (r: Ticket)
    ensures r.owner == Some(username) && r.(owner := t.owner) == t
  {
    t.(owner := Some(username))
  }

  function AddOutcome(st: Store, req: Request): (o: Outcome)
    ensures o.response.requestId == Some(req.requestId)
    ensures req.auth.None? ==> o == Outcome(st, ErrorReply(NotAuthorized(req.commandName), Some(req.requestId)))
    ensures req.auth.Some? && req.body.Plain? ==> o == Outcome(st, ErrorReply(TicketExpected, Some(req.requestId)))
    ensures o.response.error.Some? ==> o.store == st
    ensures o.response.error.None? <==>
      req.auth.Some? && req.body.WithTicket? && req.body.ticket.handle !in Handles(st.tickets)
    ensures o.response.error.None? ==>
      && o.store.tickets == st.tickets + [req.body.ticket.(owner := Some(req.auth.value.username))]
      && req.body.ticket.id in o.store.ids.used
      && o.store.ids == AfterAdd(st.ids, req.body.ticket.id)
  {
    var rid := Some(req.requestId);
    if req.auth.None? then Outcome(st, ErrorReply(NotAuthorized(req.commandName), rid))
    else if !req.body.WithTicket? then Outcome(st, ErrorReply(TicketExpected, rid))
    else
      var t := Stamped(req.body.ticket, req.auth.value.username);
      if t.handle in Handles(st.tickets) then Outcome(st, ErrorReply(AlreadyContained, rid))
      else Outcome(Store(st.tickets + [t], AfterAdd(st.ids, t.id)), Reply("Билет успешно добавлен.", rid))
  }

  method ExecuteAdd(cm: ServerCollectionManager, req: Request) returns (resp: Response)
    requires cm.Valid()
    modifies cm, cm.idManager
    ensures cm.Valid()
    ensures Outcome(cm.Snapshot(), resp) == AddOutcome(old(cm.Snapshot()), req)
  {
    var rid := Some(req.requestId);
    if req.auth.None? {
      return ErrorReply(NotAuthorized(req.commandName), rid);
    }
    if !req.body.WithTicket? {
      return ErrorReply(TicketExpected, rid);
    }
    var ticket := Stamped(req.body.ticket, req.auth.value.username);
    var added := cm.AddTicket(Some(ticket));
    if added.Failure? {
      return ErrorReply(added.error, rid);
    }
    resp := Reply("Билет успешно добавлен.", rid);
  }

  // ================================================================ add_if_max

  /** The ticket gets the next id first; it is added only to an empty deque or above the maximum. */
  function AddIfMaxOutcome(st: Store, req: Request): (o: Outcome)
    requires req.body.WithTicket? ==> AllComparable(st.tickets) && (st.tickets != [] ==> Comparable(req.body.ticket))
    ensures o.response.requestId.None?
    ensures req.body.Plain? ==> o == Outcome(st, ErrorReply(TicketExpected, None))
    ensures req.body.WithTicket? ==> o.store.ids.counter == AfterGet(st.ids).counter
    ensures req.body.WithTicket? ==>
      o.store.ids == if o.store.tickets == st.tickets then AfterGet(st.ids) else AfterAdd(AfterGet(st.ids), st.ids.counter)
    ensures o.store.tickets == st.tickets || o.store.tickets == st.tickets + [req.body.ticket.(id := st.ids.counter)]
    ensures req.body.WithTicket? && st.tickets == [] ==> o.store.tickets == [req.body.ticket.(id := st.ids.counter)]
    ensures req.body.WithTicket? && o.response.error.None? ==>
      o.response == Reply(if o.store.tickets == st.tickets then "Билет не был добавлен." else "Билет успешно добавлен.", None)
    ensures o.response.error.Some? ==> o.store.tickets == st.tickets
  {
    if !req.body.WithTicket? then Outcome(st, ErrorReply(TicketExpected, None))
    else
      var t := req.body.ticket.(id := st.ids.counter);
      var ids := AfterGet(st.ids);
      if |st.tickets| == 0 || CompareTickets(t, MaxTicket(st.tickets)) > 0 then
        if t.handle in Handles(st.tickets) then Outcome(Store(st.tickets, ids), ErrorReply(AlreadyContained, None))
        else
          AddOfCurrentCounterKeepsCounter(st.ids);
          Outcome(Store(st.tickets + [t], AfterAdd(ids, t.id)), Reply("Билет успешно добавлен.", None))
      else Outcome(Store(st.tickets, ids), Reply("Билет не был добавлен.", None))
  }

  /** Recording the id just handed out does not move the counter again. */
  lemma AddOfCurrentCounterKeepsCounter(s: IdState)
    ensures AfterAdd(AfterGet(s), s.counter).counter == AfterGet(s).counter
  {
  }

  /**
   * add_if_max adds its ticket exactly when the ticket is new to the deque and
   * strictly above every ticket in it.
   */
  lemma AddIfMaxAddsOnlyGreatest(st: Store, req: Request)
    requires req.body.WithTicket? && AllComparable(st.tickets) && Comparable(req.body.ticket)
    ensures var t := req.body.ticket.(id := st.ids.counter);
      AddIfMaxOutcome(st, req).store.tickets != st.tickets <==>
        t.handle !in Handles(st.tickets) && forall i :: 0 <= i < |st.tickets| ==> CompareTickets(t, st.tickets[i]) > 0
  {
    var t := req.body.ticket.(id := st.ids.counter);
    if st.tickets != [] {
      var m := MaxTicket(st.tickets);
      MaxTicketIsMaximum(st.tickets);
      if CompareTickets(t, m) > 0 {
        forall i | 0 <= i < |st.tickets| ensures CompareTickets(t, st.tickets[i]) > 0 {
          CompareTicketsAntisymmetric(t, m);
          CompareTicketsAntisymmetric(m, st.tickets[i]);
          CompareTicketsTransitive(st.tickets[i], m, t);
          CompareTicketsAntisymmetric(st.tickets[i], t);
        }
      } else {
        var k :| 0 <= k < |st.tickets| && st.tickets[k] == m;
        assert CompareTickets(t, st.tickets[k]) <= 0;
      }
    }
  }

  method ExecuteAddIfMax(cm: ServerCollectionManager, req: Request) returns (resp: Response)
    requires cm.Valid()
    requires req.body.WithTicket? ==> AllComparable(cm.collection) && (cm.collection != [] ==> Comparable(req.body.ticket))
    modifies cm, cm.idManager
    ensures cm.Valid()
    ensures Outcome(cm.Snapshot(), resp) == AddIfMaxOutcome(old(cm.Snapshot()), req)
  {
    if !req.body.WithTicket? {
      return ErrorReply(TicketExpected, None);
    }
    var maxTicket := cm.GetMaxTicket();
    var id := cm.idManager.GetAndIncrement();
    var ticket := req.body.ticket.(id := id);
    if maxTicket.None? || |cm.collection| == 0 {
      var added := cm.AddTicket(Some(ticket));
      if added.Failure? {
        return ErrorReply(added.error, None);
      }
      AddOfCurrentCounterKeepsCounter(old(cm.idManager.State()));
      return Reply("Билет успешно добавлен.", None);
    } else if CompareTickets(ticket, maxTicket.value) > 0 {
      MaxTicketIsMaximum(cm.collection);
      var added := cm.AddTicket(Some(ticket));
      if added.Failure? {
        return ErrorReply(added.error, None);
      }
      AddOfCurrentCounterKeepsCounter(old(cm.idManager.State()));
      return Reply("Билет успешно добавлен.", None);
    } else {
      return Reply("Билет не был добавлен.", None);
    }
  }

  // ================================================================ update

  function UpdateOutcome(st: Store, req: Request): (o: Outcome)
    requires req.auth.Some? && req.body.WithTicket? ==> |req.body.args| >= 1
    ensures o.response.requestId == Some(req.requestId) && o.store.ids == st.ids
    ensures req.auth.None? ==> o == Outcome(st, ErrorReply(NotAuthorized(req.commandName), Some(req.requestId)))
    ensures req.auth.Some? && req.body.Plain? ==> o == Outcome(st, ErrorReply(TicketExpected, Some(req.requestId)))
    ensures o.response.error.Some? ==> o.store == st
    ensures req.auth.Some? && req.body.WithTicket? ==>
      match ParseInt(req.body.args[0])
      case Failure(e) => o.response == ErrorReply(e, Some(req.requestId))
      case Success(id) => o.response == Reply("Элемент с id=" + IntToString(id) + " обновлен.", Some(req.requestId))
    ensures req.auth.Some? && req.body.WithTicket? && ParseInt(req.body.args[0]).Success? ==>
      o.store.tickets == match IndexOfId(st.tickets, ParseInt(req.body.args[0]).value)
        case None => st.tickets
        case Some(k) => st.tickets[k := Overwritten(st.tickets[k], req.body.ticket)]
  {
    var rid := Some(req.requestId);
    if req.auth.None? then Outcome(st, ErrorReply(NotAuthorized(req.commandName), rid))
    else if !req.body.WithTicket? then Outcome(st, ErrorReply(TicketExpected, rid))
    else match ParseInt(req.body.args[0])
      case Failure(e) => Outcome(st, ErrorReply(e, rid))
      case Success(id) =>
        var tickets := match IndexOfId(st.tickets, id)
          case None => st.tickets
          case Some(k) => st.tickets[k := Overwritten(st.tickets[k], req.body.ticket)];
        Outcome(Store(tickets, st.ids), Reply("Элемент с id=" + IntToString(id) + " обновлен.", rid))
  }

  /**
   * update keeps every ticket's position, object identity, id and owner; at most
   * the first ticket carrying the requested id changes, and it takes the six
   * editable fields of the request's ticket.
   */
  lemma UpdateKeepsIdentityAndPosition(st: Store, req: Request)
    requires req.auth.Some? && req.body.WithTicket? && |req.body.args| >= 1
    ensures var o := UpdateOutcome(st, req);
      && |o.store.tickets| == |st.tickets|
      && (forall i :: 0 <= i < |st.tickets| ==>
            o.store.tickets[i].handle == st.tickets[i].handle && o.store.tickets[i].id == st.tickets[i].id
            && o.store.tickets[i].owner == st.tickets[i].owner)
      && (forall i :: 0 <= i < |st.tickets| && o.store.tickets[i] != st.tickets[i] ==>
            ParseInt(req.body.args[0]).Success?
            && IndexOfId(st.tickets, ParseInt(req.body.args[0]).value) == Some(i)
            && o.store.tickets[i] == Overwritten(st.tickets[i], req.body.ticket))
    ensures var o := UpdateOutcome(st, req);
      ParseInt(req.body.args[0]).Success? ==>
        var id := ParseInt(req.body.args[0]).value;
        && ((forall j :: 0 <= j < |st.tickets| ==> st.tickets[j].id != id) ==> o.store == st)
        && (forall i ::
              (0 <= i < |st.tickets| && st.tickets[i].id == id && forall j :: 0 <= j < i ==> st.tickets[j].id != id) ==>
              o.store.tickets[i] == Overwritten(st.tickets[i], req.body.ticket))
  {
  }

  method ExecuteUpdate(cm: ServerCollectionManager, req: Request) returns (resp: Response)
    requires cm.Valid()
    requires req.auth.Some? && req.body.WithTicket? ==> |req.body.args| >= 1
    modifies cm
    ensures cm.Valid()
    ensures Outcome(cm.Snapshot(), resp) == UpdateOutcome(old(cm.Snapshot()), req)
  {
    var rid := Some(req.requestId);
    if req.auth.None? {
      return ErrorReply(NotAuthorized(req.commandName), rid);
    }
    if !req.body.WithTicket? {
      return ErrorReply(TicketExpected, rid);
    }
    var parsed := ParseInt(req.body.args[0]);
    if parsed.Failure? {
      return ErrorReply(parsed.error, rid);
    }
    cm.UpdateTicket(parsed.value, req.body.ticket);
    resp := Reply("Элемент с id=" + IntToString(parsed.value) + " обновлен.", rid);
  }

  // ================================================================ remove_by_id

  function RemoveByIdOutcome(st: Store, req: Request): (o: Outcome)
    requires |req.body.args| >= 1
    ensures o.response.requestId.None? && o.store.ids == st.ids
    ensures o.response.error.Some? ==> o.store == st
    ensures ParseInt(req.body.args[0]).Failure? ==> o.response == ErrorReply(ParseInt(req.body.args[0]).error, None)
    ensures ParseInt(req.body.args[0]).Success? ==>
      var id := ParseInt(req.body.args[0]).value;
      match IndexOfId(st.tickets, id)
      case None => o.response == ErrorReply(NoSuchId, None)
      case Some(k) =>
        o.response == Reply("Удален элемент с id=" + IntToString(id), None)
        && o.store.tickets == Without(st.tickets, st.tickets[k].handle)
  {
    match ParseInt(req.body.args[0])
    case Failure(e) => Outcome(st, ErrorReply(e, None))
    case Success(id) =>
      match IndexOfId(st.tickets, id)
      case None => Outcome(st, ErrorReply(NoSuchId, None))
      case Some(k) =>
        Outcome(Store(Without(st.tickets, st.tickets[k].handle), st.ids), Reply("Удален элемент с id=" + IntToString(id), None))
  }

  /** With distinct objects in the deque, a found id removes exactly that one ticket. */
  lemma RemoveByIdRemovesOne(st: Store, req: Request)
    requires |req.body.args| >= 1 && HandlesDistinct(st.tickets)
    ensures var o := RemoveByIdOutcome(st, req);
      o.response.error.None? ==> |o.store.tickets| == |st.tickets| - 1 && HandlesDistinct(o.store.tickets)
  {
    var o := RemoveByIdOutcome(st, req);
    if o.response.error.None? {
      var k := IndexOfId(st.tickets, ParseInt(req.body.args[0]).value).value;
      var h := st.tickets[k].handle;
      RemoveFirstIsWithout(st.tickets, h);
      assert h in Handles(st.tickets);
    }
  }

  method ExecuteRemoveById(cm: ServerCollectionManager, req: Request) returns (resp: Response)
    requires cm.Valid() && |req.body.args| >= 1
    modifies cm
    ensures cm.Valid()
    ensures Outcome(cm.Snapshot(), resp) == RemoveByIdOutcome(old(cm.Snapshot()), req)
  {
    var parsed := ParseInt(req.body.args[0]);
    if parsed.Failure? {
      return ErrorReply(parsed.error, None);
    }
    var found := cm.GetById(parsed.value);
    if found.Failure? {
      return ErrorReply(found.error, None);
    }
    var _ := cm.RemoveTicket(Some(found.value));
    resp := Reply("Удален элемент с id=" + IntToString(parsed.value), None);
  }

  // ================================================================ remove_head

  function RemoveHeadOutcome(st: Store, req: Request): (o: Outcome)
    ensures o.response.requestId == Some(req.requestId) && o.store.ids == st.ids
    ensures req.auth.None? ==> o == Outcome(st, ErrorReply(NotAuthorized(req.commandName), Some(req.requestId)))
    ensures req.auth.Some? && st.tickets == [] ==> o == Outcome(st, ErrorReply(NullRemoval, Some(req.requestId)))
    ensures req.auth.Some? && st.tickets != [] ==>
      o.store.tickets == st.tickets[1..] && o.response.error.None?
      && o.response.message == "ПЕРВЫЙ ЭЛЕМЕНТ КОЛЛЕКЦИИ:\n" && o.response.shown == Some(st.tickets[0])
  {
    var rid := Some(req.requestId);
    if req.auth.None? then Outcome(st, ErrorReply(NotAuthorized(req.commandName), rid))
    else if |st.tickets| == 0 then Outcome(st, ErrorReply(NullRemoval, rid))
    else Outcome(Store(st.tickets[1..], st.ids), ReplyShowing("ПЕРВЫЙ ЭЛЕМЕНТ КОЛЛЕКЦИИ:\n", st.tickets[0], rid))
  }

  method ExecuteRemoveHead(cm: ServerCollectionManager, req: Request) returns (resp: Response)
    requires cm.Valid()
    modifies cm
    ensures cm.Valid()
    ensures Outcome(cm.Snapshot(), resp) == RemoveHeadOutcome(old(cm.Snapshot()), req)
  {
    var rid := Some(req.requestId);
    if req.auth.None? {
      return ErrorReply(NotAuthorized(req.commandName), rid);
    }
    var head := cm.RemoveHead();
    if head.Failure? {
      return ErrorReply(head.error, rid);
    }
    resp := ReplyShowing("ПЕРВЫЙ ЭЛЕМЕНТ КОЛЛЕКЦИИ:\n", head.value, rid);
  }

  // ================================================================ remove_lower

  const RemovedPrefix := "Удалено "
  const RemovedSuffix := " элементов, меньших заданного."

  /** The remove_lower report: the digits between its fixed prefix and suffix read back as `n`. */
  function RemovedMessage(n: nat): (m: string)
    ensures |m| > |RemovedPrefix| + |RemovedSuffix|
    ensures m[..|RemovedPrefix|] == RemovedPrefix && m[|m| - |RemovedSuffix|..] == RemovedSuffix
    ensures var d := m[|RemovedPrefix|..|m| - |RemovedSuffix|]; AllDigits(d) && DigitsValue(d) == n
  {
    var d := NatToString(n);
    var m := RemovedPrefix + d + RemovedSuffix;
    assert m[|RemovedPrefix|..|m| - |RemovedSuffix|] == d;
    m
  }

  /** The reported number is the number of tickets below the given one. */
  function RemoveLowerOutcome(st: Store, req: Request): (o: Outcome)
    requires req.body.WithTicket? ==> AllComparable(st.tickets) && Comparable(req.body.ticket)
    ensures o.response.requestId.None? && o.store.ids == st.ids
    ensures req.body.Plain? ==> o == Outcome(st, ErrorReply(TicketExpected, None))
    ensures req.body.WithTicket? ==>
      && o.store.tickets == NotLower(st.tickets, req.body.ticket)
      && o.response == Reply(RemovedMessage(CountLower(st.tickets, req.body.ticket)), None)
  {
    if !req.body.WithTicket? then Outcome(st, ErrorReply(TicketExpected, None))
    else
      var kept := NotLower(st.tickets, req.body.ticket);
      NotLowerCount(st.tickets, req.body.ticket);
      Outcome(Store(kept, st.ids), Reply(RemovedMessage(|st.tickets| - |kept|), None))
  }

  method ExecuteRemoveLower(cm: ServerCollectionManager, req: Request) returns (resp: Response)
    requires cm.Valid()
    requires req.body.WithTicket? ==> AllComparable(cm.collection) && Comparable(req.body.ticket)
    modifies cm
    ensures cm.Valid()
    ensures Outcome(cm.Snapshot(), resp) == RemoveLowerOutcome(old(cm.Snapshot()), req)
  {
    if !req.body.WithTicket? {
      return ErrorReply(TicketExpected, None);
    }
    ghost var st := cm.Snapshot();
    var size := |cm.collection|;
    var removed := cm.RemoveLower(Some(req.body.ticket));
    NotLowerCount(st.tickets, req.body.ticket);
    resp := Reply(RemovedMessage(size - |cm.collection|), None);
    assert cm.Snapshot() == Store(NotLower(st.tickets, req.body.ticket), st.ids);
    assert RemoveLowerOutcome(st, req) == Outcome(cm.Snapshot(), resp);
  }

  // ================================================================ clear

  function ClearOutcome(st: Store, req: Request): (o: Outcome)
    ensures o.response.requestId.None? && o.store.ids == st.ids
    ensures req.auth.None? ==> o == Outcome(st, ErrorReply(NotAuthorized(req.commandName), None))
    ensures req.auth.Some? ==> o.store.tickets == [] && o.response == Reply("Коллекция очищена.", None)
  {
    if req.auth.None? then Outcome(st, ErrorReply(NotAuthorized(req.commandName), None))
    else Outcome(Store([], st.ids), Reply("Коллекция очищена.", None))
  }

  method ExecuteClear(cm: ServerCollectionManager, req: Request) returns (resp: Response)
    requires cm.Valid()
    modifies cm
    ensures cm.Valid()
    ensures Outcome(cm.Snapshot(), resp) == ClearOutcome(old(cm.Snapshot()), req)
  {
    if req.auth.None? {
      return ErrorReply(NotAuthorized(req.commandName), None);
    }
    cm.ClearCollection();
    resp := Reply("Коллекция очищена.", None);
  }
}
