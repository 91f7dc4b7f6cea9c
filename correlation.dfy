/** How `_handleResponse` pairs inbound payloads with the expectations that
    `_expectResponse` records. This revision keeps every expectation for
    good: records are appended, never removed, and every inbound payload is
    matched against the whole list, JSON by field names and text by
    pattern. */
module Correlation {
  import opened Common
  import opened Patterns

  /** An inbound payload, as `JSON.parse` classifies it.
      - `Text(raw)`: the data is not JSON (`JSON.parse` throws `SyntaxError`).
      - `JsonNull`: the JSON literal `null`.
      - `Json(keys, first, event)`: any other JSON value `v`, seen through
        what the client reads of it: `keys` is `Object.keys(v)` (an object's
        keys, an array's index strings), `first` is `Object.keys(v[0])`, or
        `None` when `v[0]` is null or undefined (an empty array, say), and
        `event` is `Some(tag)` when `v.Event` is a (truthy) non-empty string. */
  datatype Payload =
    | Text(raw: string)
    | JsonNull
    | Json(keys: seq<string>, first: Option<seq<string>>, event: Option<string>)

  /** The state of the promise an expectation holds. */
  datatype Outcome = Pending | Resolved(value: Payload) | Rejected(error: IpcError)

  /** A `ResponseExpectation` record: the field names a JSON reply must
      carry, whether the reply is an array whose first element is sampled,
      the pattern a text reply must match, and its promise. */
  datatype Expectation = Expectation(fields: seq<string>, isArray: bool, pattern: Pattern, outcome: Outcome)

  /** The two records stand for the same request (only their promises may
      differ). */
  predicate SameRequest(a: Expectation, b: Expectation)
  {
    a.fields == b.fields && a.isArray == b.isArray && a.pattern == b.pattern
  }

  /** The record `_expectResponse(fields, isArray, match)` pushes: a missing
      pattern defaults to the sentinel. */
  function NewExpectation(fields: seq<string>, isArray: bool, pattern: Option<Pattern>): (e: Expectation)
    ensures e.fields == fields && e.isArray == isArray
    ensures e.outcome.Pending?
    ensures pattern.Some? ==> e.pattern == pattern.value
    ensures pattern.None? ==> e.pattern == Sentinel
  {
    Expectation(fields, isArray, if pattern.Some? then pattern.value else Sentinel, Pending)
  }

  /** `exp.resolve(v)`: a pending promise resolves with `v`; one already
      settled ignores the call. */
  function Settle(e: Expectation, v: Payload): (r: Expectation)
    ensures SameRequest(e, r)
    ensures e.outcome.Pending? ==> r.outcome == Resolved(v)
    ensures !e.outcome.Pending? ==> r == e
  {
    if e.outcome.Pending? then e.(outcome := Resolved(v)) else e
  }

  // ---------------------------------------------------------------------
  // Classification
  // ---------------------------------------------------------------------

  /** Where `_handleResponse` sends a payload. */
  datatype Route =
    | Dispatch(tag: string)   // a JSON event, to `_handleEvent`
    | ScanFields              // a JSON reply, matched by field names
    | ScanText                // a text reply, matched by pattern
    | Raise(error: IpcError)  // an `ERR:` text, thrown
    | Drop                    // `null`: reading `.Event` throws a TypeError, which is swallowed

  function RouteOf(p: Payload): (r: Route)
    ensures r.Raise? <==> p.Text? && StartsWith(p.raw, "ERR:")
    ensures r.Raise? ==> r.error.message == p.raw
    ensures r.Dispatch? <==> p.Json? && p.event.Some?
    ensures r.ScanFields? <==> p.Json? && p.event.None?
    ensures r.ScanText? <==> p.Text? && !StartsWith(p.raw, "ERR:")
    ensures r.Drop? <==> p.JsonNull?
  {
    match p
    case JsonNull => Drop
    case Json(_, _, event) => if event.Some? then Dispatch(event.value) else ScanFields
    case Text(raw) => if StartsWith(raw, "ERR:") then Raise(JandIpcError(raw)) else ScanText
  }

  // ---------------------------------------------------------------------
  // The JSON scan
  // ---------------------------------------------------------------------

  /** `targetFields.find(i => i == field)` is truthy: the key is there and,
      being the value `find` returns, is not the falsy empty string. */
  predicate HasField(keys: seq<string>, field: string)
  {
    field in keys && field != ""
  }

  /** The keys a record compares its fields with: those of the first element
      for an array record, else those of the payload itself. `None` when
      `Object.keys` throws. */
  function TargetKeys(e: Expectation, p: Payload): Option<seq<string>>
    requires p.Json?
  {
    if e.isArray then p.first else Some(p.keys)
  }

  /** The JSON scan resolves record `e` and goes on to the next: its field
      list is non-empty, its keys can be read, and it finds every field. */
  predicate Accepts(e: Expectation, p: Payload): (b: bool)
    requires p.Json?
    ensures e.fields == [] ==> !b
    ensures b ==> TargetKeys(e, p).Some?
    ensures b ==> forall k | 0 <= k < |e.fields| :: e.fields[k] != "" && e.fields[k] in TargetKeys(e, p).value
  {
    |e.fields| > 0 && TargetKeys(e, p).Some? &&
    forall k | 0 <= k < |e.fields| :: HasField(TargetKeys(e, p).value, e.fields[k])
  }

  /** How many records, from the front, the JSON scan resolves before it
      stops (by `return`, `break` or a swallowed TypeError) or runs out. */
  function AcceptedPrefix(records: seq<Expectation>, p: Payload): (n: nat)
    requires p.Json?
    ensures n <= |records|
    ensures forall j | 0 <= j < n :: Accepts(records[j], p)
    ensures n < |records| ==> !Accepts(records[n], p)
  {
    if records == [] || !Accepts(records[0], p) then 0
    else 1 + AcceptedPrefix(records[1..], p)
  }

  /** The list after the first `n` records have been resolved with `v`. */
  function SettlePrefix(records: seq<Expectation>, n: nat, v: Payload): seq<Expectation>
    requires n <= |records|
  {
    seq(|records|, i requires 0 <= i < |records| => if i < n then Settle(records[i], v) else records[i])
  }

  // ---------------------------------------------------------------------
  // The text scan
  // ---------------------------------------------------------------------

  /** The record the text scan stops at: the first, in list order, whose
      pattern matches, whether or not its promise is still pending. */
  function FirstMatch(records: seq<Expectation>, s: string): (t: Option<nat>)
    ensures t.Some? ==> t.value < |records| && Test(records[t.value].pattern, s)
    ensures t.Some? ==> forall j | 0 <= j < t.value :: !Test(records[j].pattern, s)
    ensures t.None? ==> forall j | 0 <= j < |records| :: !Test(records[j].pattern, s)
  {
    if records == [] then None
    else if Test(records[0].pattern, s) then Some(0)
    else
      match FirstMatch(records[1..], s)
      case None => None
      case Some(i) => Some(i + 1)
  }

  // ---------------------------------------------------------------------
  // One inbound payload
  // ---------------------------------------------------------------------

  /** The expectation list after `_handleResponse` has handled `p`. */
  function AfterResponse(records: seq<Expectation>, p: Payload): (r: seq<Expectation>)
    ensures |r| == |records|
    ensures forall i | 0 <= i < |records| :: r[i] == records[i] || r[i] == Settle(records[i], p)
  {
    match RouteOf(p)
    case ScanFields => SettlePrefix(records, AcceptedPrefix(records, p), p)
    case ScanText =>
      (match FirstMatch(records, p.raw)
       case Some(i) => records[i := Settle(records[i], p)]
       case None => records)
    case _ => records
  }

  /** `later` is `earlier` grown: the same requests in the same order, maybe
      followed by new ones, and no settled promise has changed. */
  predicate Extends(earlier: seq<Expectation>, later: seq<Expectation>)
  {
    |earlier| <= |later| &&
    forall i | 0 <= i < |earlier| ::
      SameRequest(earlier[i], later[i]) &&
      (!earlier[i].outcome.Pending? ==> later[i].outcome == earlier[i].outcome)
  }

  /** Handling a payload removes, adds and reorders nothing, settles only
      pending promises, and settles them only by resolving. */
  lemma ResponseKeepsRecords(records: seq<Expectation>, p: Payload)
    ensures |AfterResponse(records, p)| == |records|
    ensures Extends(records, AfterResponse(records, p))
    ensures forall i | 0 <= i < |records| :: AfterResponse(records, p)[i].outcome.Rejected? ==> records[i].outcome.Rejected?
  {
  }

  /** A JSON payload carrying an `Event` tag goes to event handling only and
      resolves nothing. */
  lemma EventSettlesNothing(records: seq<Expectation>, p: Payload)
    requires p.Json? && p.event.Some?
    ensures AfterResponse(records, p) == records
  {
  }

  /** An `ERR:` text is thrown and resolves nothing. */
  lemma ErrorTextSettlesNothing(records: seq<Expectation>, s: string)
    requires StartsWith(s, "ERR:")
    ensures AfterResponse(records, Text(s)) == records
  {
  }

  /** Any other text changes at most one record: the first whose pattern
      matches, and only if its promise is still pending. */
  lemma TextSettlesFirstMatchOnly(records: seq<Expectation>, s: string, i: nat)
    requires !StartsWith(s, "ERR:")
    requires i < |records|
    ensures AfterResponse(records, Text(s))[i] != records[i] <==>
      FirstMatch(records, s) == Some(i) && records[i].outcome.Pending?
    ensures AfterResponse(records, Text(s))[i] != records[i] ==>
      AfterResponse(records, Text(s))[i].outcome == Resolved(Text(s))
  {
  }

  /** A JSON reply without an `Event` tag resolves record `i` exactly when it
      is pending and it and every record before it accept the reply: the
      scan stops at the first record with no fields or a missing field. */
  lemma JsonSettlesAcceptedPrefix(records: seq<Expectation>, p: Payload, i: nat)
    requires p.Json? && p.event.None?
    requires i < |records|
    ensures AfterResponse(records, p)[i] != records[i] <==>
      records[i].outcome.Pending? && forall j | 0 <= j <= i :: Accepts(records[j], p)
    ensures AfterResponse(records, p)[i] != records[i] ==> AfterResponse(records, p)[i].outcome == Resolved(p)
  {
    var n := AcceptedPrefix(records, p);
    if i >= n {
      assert !Accepts(records[n], p);
    }
  }

  /** A record that expects text (no fields) is never resolved by JSON, and
      it shields every record behind it from JSON replies. */
  lemma NoFieldsBlocksJson(records: seq<Expectation>, p: Payload, i: nat, j: nat)
    requires p.Json?
    requires i <= j < |records|
    requires records[i].fields == []
    ensures AfterResponse(records, p)[j] == records[j]
  {
    if p.event.None? {
      JsonSettlesAcceptedPrefix(records, p, j);
    }
  }

  /** Once a record has been answered, it keeps catching the text it is the
      first to match: a later request waiting for the same text is never
      resolved. */
  lemma AnsweredRecordCapturesText(records: seq<Expectation>, s: string, i: nat)
    requires i < |records| && !records[i].outcome.Pending?
    requires Test(records[i].pattern, s)
    requires forall j | 0 <= j < i :: !Test(records[j].pattern, s)
    ensures AfterResponse(records, Text(s)) == records
  {
    if !StartsWith(s, "ERR:") {
      assert FirstMatch(records, s) == Some(i);
    }
  }

  // ---------------------------------------------------------------------
  // Runs of requests and replies
  // ---------------------------------------------------------------------

  /** What happens to the expectation list: a wrapper registers an
      expectation, or a payload comes in. */
  datatype Step =
    | Expect(fields: seq<string>, isArray: bool, pattern: Option<Pattern>)
    | Inbound(payload: Payload)

  function Apply(records: seq<Expectation>, step: Step): seq<Expectation>
  {
    match step
    case Expect(fields, isArray, pattern) => records + [NewExpectation(fields, isArray, pattern)]
    case Inbound(p) => AfterResponse(records, p)
  }

  /** The list after the steps, in order. */
  function Run(records: seq<Expectation>, steps: seq<Step>): seq<Expectation>
    decreases |steps|
  {
    if steps == [] then records else Run(Apply(records, steps[0]), steps[1..])
  }

  /** The number of expectations the steps register. */
  function ExpectCount(steps: seq<Step>): nat
  {
    if steps == [] then 0 else (if steps[0].Expect? then 1 else 0) + ExpectCount(steps[1..])
  }

  lemma ExtendsTransitive(a: seq<Expectation>, b: seq<Expectation>, c: seq<Expectation>)
    requires Extends(a, b) && Extends(b, c)
    ensures Extends(a, c)
  {
  }

  /** Over any run the list only grows, by exactly one record per
      expectation: nothing is removed or reordered, and no settled promise
      changes. */
  lemma {:induction false} RunOnlyGrows(records: seq<Expectation>, steps: seq<Step>)
    ensures Extends(records, Run(records, steps))
    ensures |Run(records, steps)| == |records| + ExpectCount(steps)
    decreases |steps|
  {
    if steps != [] {
      var next := Apply(records, steps[0]);
      if steps[0].Inbound? {
        ResponseKeepsRecords(records, steps[0].payload);
      }
      assert Extends(records, next);
      RunOnlyGrows(next, steps[1..]);
      ExtendsTransitive(records, next, Run(next, steps[1..]));
    }
  }

  /** No promise is ever rejected: nothing in `_handleResponse` calls
      `reject`. */
  lemma {:induction false} RunNeverRejects(records: seq<Expectation>, steps: seq<Step>)
    requires forall i | 0 <= i < |records| :: !records[i].outcome.Rejected?
    ensures forall i | 0 <= i < |Run(records, steps)| :: !Run(records, steps)[i].outcome.Rejected?
    decreases |steps|
  {
    if steps != [] {
      var next := Apply(records, steps[0]);
      if steps[0].Inbound? {
        ResponseKeepsRecords(records, steps[0].payload);
      }
      RunNeverRejects(next, steps[1..]);
    }
  }
}
