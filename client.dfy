/**
 * The client side of a request: the table of requests awaiting a response,
 * filled before a request is sent and emptied by the receiver or on timeout,
 * and the console loop that decides what a typed line is.
 *
 * The receiver thread is modelled sequentially: the responses that arrive while
 * a request is awaited are a sequence handed to the receiver loop.
 */
module Client {
  import opened Wrappers
  import opened Data
  import opened Errors
  import opened Text
  import opened Network
  import opened Dispatch

  /** A CompletableFuture<Response>: empty until completed, then fixed. */
  class Future {
    var value: Option<Response>

    constructor ()
      ensures value == None
    {
      value := None;
    }

    /** Completes an empty future; a completed one keeps its value. */
    method Complete(r: Response) returns (changed: bool)
      modifies this
      ensures changed <==> old(value).None?
      ensures value == if changed then Some(r) else old(value)
    {
      changed := value.None?;
      if changed {
        value := Some(r);
      }
    }
  }

  /** TimeoutException, which carries no message. */
  const TimeoutError := Error(Timeout, "")

  /** The first response in `rs` that answers `id`. */
  function FirstWithId(rs: seq<Response>, id: RequestId): (r: Option<Response>)
    ensures r.Some? ==> r.value in rs && r.value.requestId == Some(id)
    ensures r.None? ==> forall k :: 0 <= k < |rs| ==> rs[k].requestId != Some(id)
  {
    if rs == [] then None
    else
      var earlier := FirstWithId(rs[..|rs| - 1], id);
      if earlier.Some? then earlier
      else if rs[|rs| - 1].requestId == Some(id) then Some(rs[|rs| - 1])
      else None
  }

  /** The response FirstWithId picks comes before every other answer to the same id. */
  lemma {:induction false} FirstWithIdIsEarliest(rs: seq<Response>, id: RequestId)
    requires FirstWithId(rs, id).Some?
    ensures exists k :: (0 <= k < |rs| && rs[k] == FirstWithId(rs, id).value
      && forall j :: 0 <= j < k ==> rs[j].requestId != Some(id))
  {
    var prefix := rs[..|rs| - 1];
    assert forall j :: 0 <= j < |prefix| ==> rs[j] == prefix[j];
    if FirstWithId(prefix, id).Some? {
      FirstWithIdIsEarliest(prefix, id);
      var k :| 0 <= k < |prefix| && prefix[k] == FirstWithId(prefix, id).value
        && forall j :: 0 <= j < k ==> prefix[j].requestId != Some(id);
      assert FirstWithId(rs, id) == FirstWithId(prefix, id);
      assert rs[k] == FirstWithId(rs, id).value;
    } else {
      var k := |rs| - 1;
      assert rs[k] == FirstWithId(rs, id).value;
      assert forall j :: 0 <= j < k ==> rs[j].requestId != Some(id);
    }
  }

  /** One more arrival changes the first answer to `id` only when there was none. */
  lemma FirstWithIdSnoc(rs: seq<Response>, resp: Response, id: RequestId)
    ensures FirstWithId(rs + [resp], id) ==
      if FirstWithId(rs, id).Some? then FirstWithId(rs, id)
      else if resp.requestId == Some(id) then Some(resp)
      else None
  {
    assert (rs + [resp])[..|rs|] == rs;
  }

  /**
   * The outcome of waiting for `id`: the first response with that id, or
   * TimeoutException when none arrives.
   */
  predicate IsAnswer(answer: Result<Response, Error>, arrivals: seq<Response>, id: RequestId)
  {
    && (answer.Success? <==> FirstWithId(arrivals, id).Some?)
    && (answer.Success? ==> Some(answer.value) == FirstWithId(arrivals, id))
    && (answer.Failure? ==> answer.error == TimeoutError)
  }

  /**
   * The table after waiting for `id`: that entry is gone, and of the others
   * exactly those that no arrival answered remain.
   */
  ghost predicate OnlyUnansweredRemain(before: map<RequestId, Future>, after: map<RequestId, Future>, arrivals: seq<Response>, id: RequestId)
  {
    forall id' :: id' in after <==> id' in before && id' != id && FirstWithId(arrivals, id').None?
  }

  class PendingTable {
    var pending: map<RequestId, Future>

    /** Every entry is still awaited, and no two ids share a future. */
    ghost predicate Valid()
      reads this, pending.Values
    {
      && (forall id :: id in pending ==> pending[id].value.None?)
      && (forall a, b :: a in pending && b in pending && a != b ==> pending[a] != pending[b])
    }

    constructor ()
      ensures pending == map[] && Valid()
    {
      pending := map[];
    }

    /** The put before the send: a fresh future under the request's id. */
    method Register(id: RequestId) returns (f: Future)
      requires Valid()
      modifies this
      ensures fresh(f) && f.value.None?
      ensures pending == old(pending)[id := f]
      ensures Valid()
    {
      f := new Future();
      pending := pending[id := f];
    }

    /** The future a response would complete. */
    function Awaiting(resp: Response): set<Future>
      reads this
    {
      if resp.requestId.Some? && resp.requestId.value in pending then {pending[resp.requestId.value]} else {}
    }

    /**
     * The receiver's handling of one response: without an id it is ignored; an id
     * with an entry loses the entry and completes its future; an unknown id
     * (late, or already answered) is discarded.
     */
    method ProcessResponse(resp: Response) returns (completed: bool)
      requires Valid()
      modifies this, Awaiting(resp)
      ensures Valid()
      ensures completed <==> resp.requestId.Some? && resp.requestId.value in old(pending)
      ensures !completed ==> pending == old(pending)
      ensures completed ==> pending == old(pending) - {resp.requestId.value}
      ensures completed ==> old(pending)[resp.requestId.value].value == Some(resp)
    {
      completed := false;
      if resp.requestId.Some? {
        var id := resp.requestId.value;
        if id in pending {
          var f := pending[id];
          pending := pending - {id};
          var changed := f.Complete(resp);
          completed := true;
        }
      }
    }

    /** A second response to an already answered request finds no entry and changes nothing. */
    method DuplicateResponseIsDiscarded(resp: Response) returns (first: bool, second: bool)
      requires Valid()
      modifies this, pending.Values
      ensures Valid()
      ensures !second
      ensures first ==> resp.requestId.Some? && pending == old(pending) - {resp.requestId.value}
      ensures !first ==> pending == old(pending)
    {
      first := ProcessResponse(resp);
      second := ProcessResponse(resp);
    }

    /**
     * The table after the responses `rs` arrived, for the entries `p0` it held
     * before them: answered ids lost their entries and their futures hold the
     * first answer, unanswered ids keep their entries.
     */
    ghost predicate Received(p0: map<RequestId, Future>, rs: seq<Response>)
      reads this, pending.Values, p0.Values
    {
      && Valid()
      && (forall a, b :: a in p0 && b in p0 && a != b ==> p0[a] != p0[b])
      && (forall id :: id in pending <==> id in p0 && FirstWithId(rs, id).None?)
      && (forall id :: id in pending ==> pending[id] == p0[id])
      && (forall id :: id in p0 ==> p0[id].value == FirstWithId(rs, id))
    }

    /** One turn of the receiver loop keeps Received, with the new response appended. */
    method ReceiveNext(resp: Response, ghost p0: map<RequestId, Future>, ghost rs: seq<Response>)
      requires Received(p0, rs)
      modifies this, Awaiting(resp)
      ensures Received(p0, rs + [resp])
    {
      ghost var touched := Awaiting(resp);
      var completed := ProcessResponse(resp);
      forall id | id in p0
        ensures p0[id].value == FirstWithId(rs + [resp], id)
        ensures id in pending <==> FirstWithId(rs + [resp], id).None?
      {
        FirstWithIdSnoc(rs, resp, id);
        if !(completed && id == resp.requestId.value) {
          assert p0[id] !in touched;
        }
      }
    }

    /**
     * The receiver loop over the responses that arrive: every registered future
     * ends holding the first response with its id, or nothing, and exactly the
     * unanswered ids keep their entries.
     */
    method ReceiveAll(arrivals: seq<Response>)
      requires Valid()
      modifies this, pending.Values
      ensures Valid()
      ensures forall id :: id in pending <==> id in old(pending) && FirstWithId(arrivals, id).None?
      ensures forall id :: id in pending ==> pending[id] == old(pending)[id]
      ensures forall id :: id in old(pending) ==> old(pending)[id].value == FirstWithId(arrivals, id)
    {
      ghost var p0 := pending;
      var i := 0;
      while i < |arrivals|
        invariant 0 <= i <= |arrivals|
        invariant Received(p0, arrivals[..i])
      {
        assert Awaiting(arrivals[i]) <= p0.Values;
        assert arrivals[..i + 1] == arrivals[..i] + [arrivals[i]];
        ReceiveNext(arrivals[i], p0, arrivals[..i]);
        i := i + 1;
      }
      assert arrivals[..i] == arrivals;
    }

    /**
     * sendRequestWithTimeout: register, send, wait. The answer is the first
     * response carrying the request's id; without one the wait times out and
     * the caller removes its own entry, so no entry outlives the wait.
     */
    method SendRequestWithTimeout(req: Request, arrivals: seq<Response>) returns (r: Result<Response, Error>)
      requires Valid()
      modifies this, pending.Values
      ensures Valid()
      ensures r.Success? <==> FirstWithId(arrivals, req.requestId).Some?
      ensures r.Success? ==> Some(r.value) == FirstWithId(arrivals, req.requestId)
      ensures r.Failure? ==> r.error == TimeoutError
      ensures req.requestId !in pending
      ensures forall id :: id in pending <==> id in old(pending) && id != req.requestId && FirstWithId(arrivals, id).None?
    {
      var f := Register(req.requestId);
      ReceiveAll(arrivals);
      if f.value.Some? {
        r := Success(f.value.value);
      } else {
        pending := pending - {req.requestId};
        r := Failure(TimeoutError);
      }
    }

    /** A request goes out: send_message is sent without an entry and not awaited; any other is awaited. */
    method Submit(req: Request, arrivals: seq<Response>) returns (r: Option<Result<Response, Error>>)
      requires Valid()
      modifies this, pending.Values
      ensures Valid()
      ensures req.commandName == "send_message" ==> r.None? && pending == old(pending)
      ensures req.commandName != "send_message" ==>
        && r.Some? && req.requestId !in pending
        && IsAnswer(r.value, arrivals, req.requestId)
        && OnlyUnansweredRemain(old(pending), pending, arrivals, req.requestId)
    {
      if req.commandName == "send_message" {
        r := None;
      } else {
        var answer := SendRequestWithTimeout(req, arrivals);
        r := Some(answer);
      }
    }
  }

  // ---------------------------------------------------------------- the console loop

  const ScriptUsage := "[CLIENT] Команда принимает один обязательный аргумент."
  const ExitUsage := "[CLIENT] Команда не принимает аргументов."

  /** What the console loop does with a typed line. */
  datatype LineAction =
    | Skip
    | RunScript(fileName: string)
    | Exit
    | Usage(message: string)
    | Command(line: string)

  /** A line that does not start with `\s` splits into at least one word, the first non-empty. */
  lemma SplitHasFirstWord(line: string)
    requires line != [] && !IsRegexSpace(line[0])
    ensures SplitWhitespace(line) != [] && SplitWhitespace(line)[0] != []
  {
    if FirstSpace(line) != |line| {
      var ps := Pieces(line);
      var r := DropTrailingEmpty(ps);
      assert ps[0] != [];
      assert r[0] == ps[0];
    }
  }

  /**
   * Blank lines are skipped; execute_script needs exactly one argument and exit
   * none; every other line goes to the command manager, trimmed.
   */
  function ClassifyLine(raw: string): (a: LineAction)
    ensures a == Skip <==> Trim(raw) == []
    ensures a.RunScript? ==> SplitWhitespace(Trim(raw)) == ["execute_script", a.fileName]
    ensures a == Exit ==> SplitWhitespace(Trim(raw)) == ["exit"]
    ensures a.Usage? ==> a.message == ScriptUsage || a.message == ExitUsage
    ensures a.Command? ==> a.line == Trim(raw) && a.line != [] && SplitWhitespace(a.line)[0] !in {"execute_script", "exit"}
  {
    var line := Trim(raw);
    if line == [] then Skip
    else
      assert !IsAtMostSpace(line[0]);
      SplitHasFirstWord(line);
      var parts := SplitWhitespace(line);
      if parts[0] == "execute_script" then
        if |parts| != 2 then Usage(ScriptUsage) else RunScript(parts[1])
      else if parts[0] == "exit" then
        if |parts| != 1 then Usage(ExitUsage) else Exit
      else Command(line)
  }

  /** A line of plain words separated by single spaces is classified by its words alone. */
  lemma ClassifyWords(ws: seq<string>)
    requires |ws| >= 1 && forall k :: 0 <= k < |ws| ==> IsPlainToken(ws[k])
    ensures ClassifyLine(Join(ws)) ==
      if ws[0] == "execute_script" then (if |ws| == 2 then RunScript(ws[1]) else Usage(ScriptUsage))
      else if ws[0] == "exit" then (if |ws| == 1 then Exit else Usage(ExitUsage))
      else Command(Join(ws))
  {
    PlainWordsMakeCleanLine(ws);
    ClassifyCleanLine(Join(ws), ws);
  }

  /** Plain words joined by single spaces: trim leaves the line alone and the split gives the words. */
  lemma PlainWordsMakeCleanLine(ws: seq<string>)
    requires |ws| >= 1 && forall k :: 0 <= k < |ws| ==> IsPlainToken(ws[k])
    ensures Join(ws) != [] && Trim(Join(ws)) == Join(ws) && SplitWhitespace(Join(ws)) == ws
  {
    forall k | 0 <= k < |ws| ensures IsToken(ws[k]) {
      PlainTokenIsToken(ws[k]);
    }
    assert Join(ws) != [] && Trim(Join(ws)) == Join(ws) by {
      JoinEdges(ws);
      PlainTokenEdges(ws[0]);
      PlainTokenEdges(ws[|ws| - 1]);
      TrimIdempotent(Join(ws));
    }
    SplitOfJoin(ws);
  }

  lemma ClassifyCleanLine(line: string, ws: seq<string>)
    requires line != [] && Trim(line) == line && SplitWhitespace(line) == ws && |ws| >= 1
    ensures ClassifyLine(line) ==
      if ws[0] == "execute_script" then (if |ws| == 2 then RunScript(ws[1]) else Usage(ScriptUsage))
      else if ws[0] == "exit" then (if |ws| == 1 then Exit else Usage(ExitUsage))
      else Command(line)
  {
  }

  /** What one pass of the console loop did with a line. */
  datatype LineResult =
    | Skipped
    | ScriptRequested(fileName: string)
    | ExitRequested
    | Rejected(message: string)
    | Failed(error: Error)
    | Sent
    | Answered(answer: Result<Response, Error>)

  /**
   * The command branch of spinLoop once the request is built: a conversion
   * error is reported, send_message is sent without waiting, any other request
   * is awaited and leaves no entry behind.
   */
  method SendLine(table: PendingTable, built: Result<Request, Error>, arrivals: seq<Response>) returns (o: LineResult)
    requires table.Valid()
    modifies table, table.pending.Values
    ensures table.Valid()
    ensures built.Failure? ==> o == Failed(built.error) && table.pending == old(table.pending)
    ensures built.Success? && built.value.commandName == "send_message" ==> o == Sent && table.pending == old(table.pending)
    ensures built.Success? && built.value.commandName != "send_message" ==>
      && o.Answered? && built.value.requestId !in table.pending
      && IsAnswer(o.answer, arrivals, built.value.requestId)
      && OnlyUnansweredRemain(old(table.pending), table.pending, arrivals, built.value.requestId)
  {
    match built
    case Failure(e) => o := Failed(e);
    case Success(req) =>
      var sent := table.Submit(req, arrivals);
      o := if sent.Some? then Answered(sent.value) else Sent;
  }

  /**
   * One pass of spinLoop: classify the line; a command line is built and sent,
   * any other line leaves the table alone.
   */
  method HandleLine(table: PendingTable, manager: CommandManager, raw: string, auth: Option<AuthCredentials>,
                    id: RequestId, input: ConsoleInput, arrivals: seq<Response>) returns (o: LineResult)
    requires table.Valid() && manager.Valid()
    modifies table, table.pending.Values
    ensures table.Valid()
    ensures !ClassifyLine(raw).Command? ==> table.pending == old(table.pending)
    ensures ClassifyLine(raw) == Skip ==> o == Skipped
    ensures ClassifyLine(raw).RunScript? ==> o == ScriptRequested(ClassifyLine(raw).fileName)
    ensures ClassifyLine(raw) == Exit ==> o == ExitRequested
    ensures ClassifyLine(raw).Usage? ==> o == Rejected(ClassifyLine(raw).message)
    ensures ClassifyLine(raw).Command? ==>
      var built := manager.ConvertInputToCommandRequest(ClassifyLine(raw).line, auth, id, input);
      && (built.Failure? ==> o == Failed(built.error) && table.pending == old(table.pending))
      && (built.Success? && built.value.commandName == "send_message" ==> o == Sent && table.pending == old(table.pending))
      && (built.Success? && built.value.commandName != "send_message" ==>
            && o.Answered? && id !in table.pending
            && IsAnswer(o.answer, arrivals, id)
            && OnlyUnansweredRemain(old(table.pending), table.pending, arrivals, id))
  {
    var action := ClassifyLine(raw);
    match action
    case Skip => o := Skipped;
    case RunScript(f) => o := ScriptRequested(f);
    case Exit => o := ExitRequested;
    case Usage(m) => o := Rejected(m);
    case Command(line) =>
      var built := manager.ConvertInputToCommandRequest(line, auth, id, input);
      o := SendLine(table, built, arrivals);
  }
}
