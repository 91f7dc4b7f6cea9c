/** The client object, `JandIpcClient`: its state and the methods that
    change it. Socket I/O is represented by the frames written and the
    payloads handed in; `emit` by the events logged. */
module Client {
  import opened Common
  import opened Addressing
  import opened Events
  import opened Patterns
  import opened Correlation
  import opened Protocol

  /** One `emit(evt.Event, evt)` call. */
  datatype Emission = Emission(category: string, event: Payload)

  /** The error `_sendData` throws when no socket is open. */
  const NotConnected: IpcError := JandIpcError("Socket not connected")

  class JandIpcClient {
    /** The logical endpoint name. */
    var name: string
    /** The socket, by the address it was opened on; `None` before `connect`. */
    var socket: Option<string>
    /** Every expectation registered so far, in registration order. */
    var expectations: seq<Expectation>
    /** The subscription mask. */
    var expectsEvent: Mask
    /** Every frame written to the socket, in order. */
    var written: seq<Frame>
    /** Every event emitted to listeners, in order. */
    var emitted: seq<Emission>

    constructor (given: Option<string>)
      ensures name == ClientName(given) && socket == None
      ensures expectations == [] && expectsEvent == {} && written == [] && emitted == []
    {
      name := ClientName(given);
      socket := None;
      expectations := [];
      expectsEvent := {};
      written := [];
      emitted := [];
    }

    /** `connect`: opens the socket on the resolved address. Readiness and
        the connection's failure are I/O and not modelled. */
    method Connect(platform: string)
      modifies this`socket
      ensures socket == Some(ResolvePath(platform, name))
    {
      socket := Some(ResolvePath(platform, name));
    }

    /** `_sendData`: throws when no socket is open, else writes the frame. */
    method SendData(frameType: string, data: Option<JsonValue>) returns (r: Result<()>)
      modifies this`written
      ensures socket.None? ==> r == Err(NotConnected) && written == old(written)
      ensures socket.Some? ==> r == Ok(()) && written == old(written) + [BuildFrame(frameType, data)]
    {
      if socket.None? {
        return Err(NotConnected);
      }
      written := written + [BuildFrame(frameType, data)];
      r := Ok(());
    }

    /** `subscribe`, as written: each name is looked up in the argument
        array itself. The mask grows by what those lookups yield, even when
        the send then throws. */
    method Subscribe(names: seq<string>) returns (r: Result<()>)
      modifies this`expectsEvent, this`written
      ensures expectsEvent == MaskAfter(names, |names|, old(expectsEvent))
      ensures old(expectsEvent) <= expectsEvent
      ensures socket.None? ==> r == Err(NotConnected) && written == old(written)
      ensures socket.Some? ==> r == Ok(()) && written == old(written) + [BuildFrame("subscribe", Some(StringArray(names)))]
    {
      ghost var start := expectsEvent;
      for i := 0 to |names|
        invariant expectsEvent == MaskAfter(names, i, start)
        modifies this`expectsEvent
      {
        // A lookup that is undefined, or falsy, contributes no bits: the
        // `if` around the OR changes nothing.
        expectsEvent := expectsEvent + Contribution(names, names[i]);
      }
      var payload := StringArray(names);
      r := SendData("subscribe", Some(payload));
    }

    /** `_expectResponse`: pushes one pending record at the end; the handle
        returned is its position, which never changes. */
    method ExpectResponse(fields: seq<string>, isArray: bool, pattern: Option<Pattern>) returns (handle: nat)
      modifies this`expectations
      ensures expectations == old(expectations) + [NewExpectation(fields, isArray, pattern)]
      ensures handle == |old(expectations)| && expectations[handle].outcome.Pending?
    {
      handle := |expectations|;
      expectations := expectations + [NewExpectation(fields, isArray, pattern)];
    }

    /** `_handleEvent`: emits the event when its tag is a category whose bit
        is in the mask, and otherwise does nothing. */
    method HandleEvent(tag: string, evt: Payload)
      modifies this`emitted
      ensures emitted == old(emitted) + (if Delivers(tag, expectsEvent) then [Emission(tag, evt)] else [])
    {
      if IsCategory(tag) {
        if Bits(TableValue(tag)) * expectsEvent != {} {
          emitted := emitted + [Emission(tag, evt)];
        }
      }
    }

    /** `_handleResponse`: routes one inbound payload. An event goes to
        `HandleEvent`; a JSON reply resolves records from the front while
        they find all their fields; a text reply resolves the first record
        whose pattern matches; an `ERR:` text is thrown. */
    method HandleResponse(p: Payload) returns (r: Result<()>)
      modifies this`expectations, this`emitted
      ensures expectations == AfterResponse(old(expectations), p)
      ensures RouteOf(p).Raise? ==> r == Err(RouteOf(p).error)
      ensures !RouteOf(p).Raise? ==> r == Ok(())
      ensures RouteOf(p).Dispatch? ==>
        emitted == old(emitted) + (if Delivers(RouteOf(p).tag, expectsEvent) then [Emission(RouteOf(p).tag, p)] else [])
      ensures !RouteOf(p).Dispatch? ==> emitted == old(emitted)
    {
      r := Ok(());
      match p {
        case JsonNull =>
          // reading `.Event` of null throws a TypeError, which is swallowed
        case Json(keys, first, event) =>
          if event.Some? {
            HandleEvent(event.value, p);
          } else if |expectations| > 0 {
            ScanFields(p);
          }
        case Text(raw) =>
          if StartsWith(raw, "ERR:") {
            r := Err(JandIpcError(raw));
            return;
          }
          var i := 0;
          while i < |expectations|
            invariant i <= |expectations|
            invariant expectations == old(expectations)
            invariant forall j | 0 <= j < i :: !Test(expectations[j].pattern, raw)
          {
            if Test(expectations[i].pattern, raw) {
              expectations := expectations[i := Settle(expectations[i], p)];
              break;
            }
            i := i + 1;
          }
      }
    }

    /** The JSON half of `_handleResponse`: the `for` loop over the records,
        with its early `return`/`break`s. */
    method ScanFields(p: Payload)
      requires p.Json?
      modifies this`expectations
      ensures expectations == SettlePrefix(old(expectations), AcceptedPrefix(old(expectations), p), p)
    {
      ghost var before := expectations;
      var i := 0;
      while i < |expectations|
        invariant |expectations| == |before|
        invariant i <= AcceptedPrefix(before, p)
        invariant expectations == SettlePrefix(before, i, p)
      {
        var exp := expectations[i];
        assert exp == before[i];
        if |exp.fields| == 0 {
          break;
        }
        var target := if exp.isArray then p.first else Some(p.keys);
        if target.None? {
          // `Object.keys(undefined)` throws a TypeError, which is swallowed
          break;
        }
        var matching := true;
        var j := 0;
        while j < |exp.fields|
          invariant j <= |exp.fields|
          invariant forall k | 0 <= k < j :: HasField(target.value, exp.fields[k])
        {
          if !HasField(target.value, exp.fields[j]) {
            matching := false;
            break;
          }
          j := j + 1;
        }
        if !matching {
          break;
        }
        expectations := expectations[i := Settle(exp, p)];
        i := i + 1;
      }
    }

    /** One wrapper's request: send its frame, then register what it waits
        for. A throw from the send registers nothing. */
    method Invoke(op: Operation) returns (r: Result<Option<nat>>)
      modifies this`written, this`expectations
      ensures socket.None? ==> r == Err(NotConnected) && written == old(written) && expectations == old(expectations)
      ensures socket.Some? ==> written == old(written) + [BuildFrame(RequestType(op), RequestData(op))]
      ensures socket.Some? && Awaited(op).None? ==> r == Ok(None) && expectations == old(expectations)
      ensures socket.Some? && Awaited(op).Some? ==>
        r == Ok(Some(|old(expectations)|)) && expectations == old(expectations) + [Registered(Awaited(op).value)]
    {
      var sent := SendData(RequestType(op), RequestData(op));
      if sent.Err? {
        return Err(sent.error);
      }
      var wait := Awaited(op);
      if wait.None? {
        return Ok(None);
      }
      var handle := ExpectResponse(wait.value.fields, wait.value.isArray, wait.value.pattern);
      r := Ok(Some(handle));
    }
  }
}
