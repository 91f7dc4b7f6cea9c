/** What goes out on the wire (`_sendData`'s frame), how the wrappers phrase
    their requests, what each of them waits for, and how the wrappers turn
    the reply they get into their result. */
module Protocol {
  import opened Common
  import opened Patterns
  import opened Correlation

  /** The JSON values the client hands to `_sendData`. */
  datatype JsonValue =
    | JString(text: string)
    | JBool(flag: bool)
    | JArray(items: seq<JsonValue>)
    | JObject(members: seq<(string, JsonValue)>)

  /** The `Data` member of a frame: a string argument goes out as it is,
      anything else as its JSON encoding. */
  datatype Wire = Verbatim(text: string) | Encoded(value: JsonValue)

  /** `{Type, Data}` as the socket receives it. `Data` is `None` when the
      argument was undefined: `JSON.stringify` leaves out undefined members. */
  datatype Frame = Frame(Type: string, Data: Option<Wire>)

  /** The frame `_sendData(type, data)` writes. */
  function BuildFrame(frameType: string, data: Option<JsonValue>): (f: Frame)
    ensures f.Type == frameType
    ensures f.Data.None? <==> data.None?
    ensures f.Data.Some? ==> (f.Data.value.Verbatim? <==> data.value.JString?)
  {
    match data
    case None => Frame(frameType, None)
    case Some(JString(s)) => Frame(frameType, Some(Verbatim(s)))
    case Some(v) => Frame(frameType, Some(Encoded(v)))
  }

  /** The argument a frame was built from, read back. */
  function FrameArgument(f: Frame): Option<JsonValue>
  {
    match f.Data
    case None => None
    case Some(Verbatim(s)) => Some(JString(s))
    case Some(Encoded(v)) => Some(v)
  }

  /** The model's frame keeps the type and the argument. On the wire the
      `Verbatim`/`Encoded` distinction is not visible: a string argument
      that is itself JSON text is written like the value it encodes. */
  lemma FrameRoundTrip(frameType: string, data: Option<JsonValue>)
    ensures BuildFrame(frameType, data).Type == frameType
    ensures FrameArgument(BuildFrame(frameType, data)) == data
  {
  }

  // ---------------------------------------------------------------------
  // Request formats
  // ---------------------------------------------------------------------

  /** The template `${a}:${b}`. */
  function Joined(a: string, b: string): (s: string)
    ensures |s| == |a| + 1 + |b| && s[|a|] == ':'
    ensures s[..|a|] == a && s[|a| + 1..] == b
  {
    a + ":" + b
  }

  /** The text before and after the first colon (all of it, and nothing,
      when there is none). */
  function SplitAtColon(s: string): (parts: (string, string))
    ensures ':' !in parts.0
    ensures ':' in s ==> s == parts.0 + ":" + parts.1
    ensures ':' !in s ==> parts == (s, "")
  {
    if s == [] then ("", "")
    else if s[0] == ':' then ("", s[1..])
    else
      var rest := SplitAtColon(s[1..]);
      assert s == [s[0]] + s[1..];
      ([s[0]] + rest.0, rest.1)
  }

  /** A two-part request reads back as its parts when the first one holds no
      colon. */
  lemma {:induction false} SplitJoined(a: string, b: string)
    requires ':' !in a
    ensures SplitAtColon(Joined(a, b)) == (a, b)
  {
    if a != [] {
      var s := Joined(a, b);
      assert s[0] == a[0] && s[0] != ':';
      assert s[1..] == Joined(a[1..], b);
      SplitJoined(a[1..], b);
      assert [a[0]] + a[1..] == a;
    } else {
      assert Joined(a, b) == ":" + b;
    }
  }

  /** A colon in the first part makes the format ambiguous. */
  lemma JoinedIsAmbiguous()
    ensures Joined("a:b", "c") == Joined("a", "b:c")
  {
  }

  /** `enabled.toString()` */
  function BoolText(b: bool): string
  {
    if b then "true" else "false"
  }

  // ---------------------------------------------------------------------
  // The wrappers
  // ---------------------------------------------------------------------

  /** The public operations of the client, with their arguments. */
  datatype Operation =
    | GetRuntimeProcessList
    | GetDaemonStatus
    | RenameProcess(oldName: string, newName: string)
    | SendProcessStdinLine(process: string, text: string)
    | Exit
    | SetEnabled(process: string, enabled: bool)
    | SetProcessProperty(process: string, property: string, value: string)
    | GetProcessInfo(process: string)
    | StopProcess(process: string)
    | RestartProcess(process: string)
    | NewProcess(descriptor: JsonValue)
    | DeleteProcess(process: string)
    | SaveConfig
    | GetConfig
    | SetConfig(option: string, value: string)
    | FlushAllLogs

  /** The `Type` of the frame an operation sends. */
  function RequestType(op: Operation): string
  {
    match op
    case GetRuntimeProcessList => "get-processes"
    case GetDaemonStatus => "status"
    case RenameProcess(_, _) => "rename-process"
    case SendProcessStdinLine(_, _) => "send-process-stdin-line"
    case Exit => "exit"
    case SetEnabled(_, _) => "set-enabled"
    case SetProcessProperty(_, _, _) => "set-process-property"
    case GetProcessInfo(_) => "get-process-info"
    case StopProcess(_) => "stop-process"
    case RestartProcess(_) => "restart-process"
    case NewProcess(_) => "new-process"
    case DeleteProcess(_) => "delete-process"
    case SaveConfig => "save-config"
    case GetConfig => "get-config"
    case SetConfig(_, _) => "set-config"
    case FlushAllLogs => "flush-all-logs"
  }

  /** The array of strings `subscribe` sends. */
  function StringArray(names: seq<string>): JsonValue
  {
    JArray(seq(|names|, i requires 0 <= i < |names| => JString(names[i])))
  }

  /** The `data` argument an operation passes to `_sendData`. */
  function RequestData(op: Operation): (d: Option<JsonValue>)
    ensures d.None? <==>
      op.GetRuntimeProcessList? || op.GetDaemonStatus? || op.Exit? || op.SaveConfig? || op.GetConfig? || op.FlushAllLogs?
    ensures d.Some? && !op.SetProcessProperty? && !op.NewProcess? ==> d.value.JString?
  {
    match op
    case RenameProcess(a, b) => Some(JString(Joined(a, b)))
    case SendProcessStdinLine(p, t) => Some(JString(Joined(p, t)))
    case SetEnabled(p, e) => Some(JString(Joined(p, BoolText(e))))
    case SetProcessProperty(p, prop, v) =>
      Some(JObject([("Process", JString(p)), ("Property", JString(prop)), ("Data", JString(v))]))
    case GetProcessInfo(p) => Some(JString(p))
    case StopProcess(p) => Some(JString(p))
    case RestartProcess(p) => Some(JString(p))
    case NewProcess(d) => Some(d)
    case DeleteProcess(p) => Some(JString(p))
    case SetConfig(o, v) => Some(JString(Joined(o, v)))
    case _ => None
  }

  /** The arguments an operation passes to `_expectResponse`. */
  datatype Wait = Wait(fields: seq<string>, isArray: bool, pattern: Option<Pattern>)

  /** What an operation waits for; `exit` waits for nothing. */
  function Awaited(op: Operation): (w: Option<Wait>)
    ensures w.None? <==> op.Exit?
    ensures w.Some? ==> (w.value.fields == [] <==> w.value.pattern.Some?)
    ensures w.Some? ==> (w.value.isArray <==> op.GetRuntimeProcessList?)
  {
    match op
    case GetRuntimeProcessList => Some(Wait(["Name", "Running", "Stopped"], true, None))
    case GetDaemonStatus => Some(Wait(["Processes", "NotSaved"], false, None))
    case RenameProcess(_, _) => Some(Wait([], false, Some(DoneOrError)))
    case SendProcessStdinLine(_, _) => Some(Wait([], false, Some(Done)))
    case Exit => None
    case SetEnabled(_, _) => Some(Wait([], false, Some(TrueOrFalse)))
    case SetProcessProperty(_, _, _) => Some(Wait([], false, Some(DoneOrInvalid)))
    case GetProcessInfo(_) =>
      Some(Wait(["Name", "Filename", "Arguments", "WorkingDirectory", "AutoRestart", "Enabled"], false, None))
    case StopProcess(_) => Some(Wait([], false, Some(KilledOrStopped)))
    case RestartProcess(_) => Some(Wait([], false, Some(Done)))
    case NewProcess(_) => Some(Wait([], false, Some(AddedOrError)))
    case DeleteProcess(_) => Some(Wait([], false, Some(Done)))
    case SaveConfig => Some(Wait([], false, Some(Done)))
    case GetConfig => Some(Wait(["LogIpc", "FormatConfig"], false, None))
    case SetConfig(_, _) => Some(Wait([], false, Some(DoneOrOption)))
    case FlushAllLogs => Some(Wait([], false, Some(Done)))
  }

  /** The record an operation's wait pushes. */
  function Registered(w: Wait): Expectation
  {
    NewExpectation(w.fields, w.isArray, w.pattern)
  }

  /** Every wrapper waits either for text (no fields, an explicit pattern)
      or for JSON (some fields, the sentinel pattern); a text wait can never
      be resolved by JSON, and a JSON wait by no short text. */
  lemma WaitsAreTextOrJson(op: Operation, p: Payload, s: string)
    requires Awaited(op).Some?
    ensures var w := Awaited(op).value;
      (w.fields == [] <==> w.pattern.Some?) &&
      (w.fields == [] ==> AfterResponse([Registered(w)], p) == [Registered(w)] || !p.Json?) &&
      (w.fields != [] && |s| < 13 ==> !Test(Registered(w).pattern, s))
  {
    var w := Awaited(op).value;
    if w.fields == [] && p.Json? {
      NoFieldsBlocksJson([Registered(w)], p, 0, 0);
      assert AfterResponse([Registered(w)], p)[0] == [Registered(w)][0];
    }
    if w.fields != [] && |s| < 13 {
      SentinelMissesShortText(s);
    }
  }

  /** The two-part requests carry their first part intact when it holds no
      colon. */
  lemma ColonRequestsReadBack(op: Operation)
    requires op.RenameProcess? || op.SendProcessStdinLine? || op.SetEnabled? || op.SetConfig?
    requires op.RenameProcess? ==> ':' !in op.oldName
    requires op.SendProcessStdinLine? ==> ':' !in op.process
    requires op.SetEnabled? ==> ':' !in op.process
    requires op.SetConfig? ==> ':' !in op.option
    ensures RequestData(op).Some? && RequestData(op).value.JString?
    ensures BuildFrame(RequestType(op), RequestData(op)).Data.value.Verbatim?
    ensures var parts := SplitAtColon(RequestData(op).value.text);
      match op
      case RenameProcess(a, b) => parts == (a, b)
      case SendProcessStdinLine(a, b) => parts == (a, b)
      case SetEnabled(a, e) => parts == (a, BoolText(e))
      case SetConfig(a, b) => parts == (a, b)
      case _ => false
  {
    match op
    case RenameProcess(a, b) => SplitJoined(a, b);
    case SendProcessStdinLine(a, b) => SplitJoined(a, b);
    case SetEnabled(a, e) => SplitJoined(a, BoolText(e));
    case SetConfig(a, b) => SplitJoined(a, b);
  }

  // ---------------------------------------------------------------------
  // Reply decoders
  // ---------------------------------------------------------------------

  /** `stopProcess`: whether the process had been running. */
  function StopProcessResult(response: string): (running: bool)
    ensures running ==> Test(KilledOrStopped, response)
  {
    ReplyTokensMatch();
    response == "killed"
  }

  /** `stopProcess` reports a running process only for the exact reply
      `killed`; any other text its pattern accepts (`already-stopped`, or
      `killed` with anything around it) reports a stopped one. */
  lemma StopProcessReports(response: string)
    ensures StopProcessResult("killed")
    ensures response != "killed" ==> !StopProcessResult(response)
    ensures Test(KilledOrStopped, "already-stopped") && !StopProcessResult("already-stopped")
    ensures Test(KilledOrStopped, "killed\n") && !StopProcessResult("killed\n")
  {
    ReplyTokensMatch();
    MatchSurvivesContext(KilledOrStopped, "killed", "", "\n");
    assert "" + "killed" + "\n" == "killed\n";
  }

  /** `setProcessProperty`: `done` succeeds, a reply starting with `Invalid`
      throws an error naming the property, and any other reply resolves
      without an error. */
  function SetPropertyResult(response: string, property: string): (r: Result<()>)
    ensures r.Err? <==> StartsWith(response, "Invalid")
    ensures r.Err? ==> r.error == JandIpcError("Property " + property + " is invalid.")
  {
    if response == "done" then Ok(())
    else if StartsWith(response, "Invalid") then Err(JandIpcError("Property " + property + " is invalid."))
    else Ok(())
  }

  /** Replies the pattern `/done|Invalid/` accepts but the decoder does not
      recognise count as success: `undone`, or `Invalid` after other text. */
  lemma SetPropertyAcceptsOtherMatches(property: string)
    ensures Test(DoneOrInvalid, "undone") && SetPropertyResult("undone", property).Ok?
    ensures Test(DoneOrInvalid, "notInvalid") && SetPropertyResult("notInvalid", property).Ok?
  {
    assert MatchesAt(DoneOrInvalid[0], "undone", 2);
    assert AlternativeMatches(DoneOrInvalid[0], "undone");
    assert MatchesAt(DoneOrInvalid[1], "notInvalid", 3);
    assert AlternativeMatches(DoneOrInvalid[1], "notInvalid");
    assert "notInvalid"[..7] == "notInva";
  }

  /** `getProcessInfo`: the reply it was resolved with, `null` (`None`) when
      it was rejected with an error whose message mentions
      `ERR:invalid-process`, and the error otherwise. */
  function ProcessInfoResult(settled: Outcome): (r: Result<Option<Payload>>)
    requires !settled.Pending?
    ensures settled.Resolved? ==> r == Ok(Some(settled.value))
    ensures settled.Rejected? ==> (r == Ok(None) <==> Includes(settled.error.message, "ERR:invalid-process"))
    ensures settled.Rejected? && r.Err? ==> r.error == settled.error
  {
    match settled
    case Resolved(v) => Ok(Some(v))
    case Rejected(e) => if Includes(e.message, "ERR:invalid-process") then Ok(None) else Err(e)
  }

  /** The not-found mapping, on the daemon's token; it is reached only by a
      rejection, which no inbound payload produces (`RunNeverRejects`). */
  lemma ProcessInfoNotFound(message: string)
    requires StartsWith(message, "ERR:invalid-process")
    ensures ProcessInfoResult(Rejected(JandIpcError(message))) == Ok(None)
    ensures ProcessInfoResult(Rejected(JandIpcError("ERR:other"))).Err?
  {
    StartsWithIncludes(message, "ERR:invalid-process");
  }
}
