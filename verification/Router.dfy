/**
  The function-call router (`app/agent_fc/router.py`). The functions say what one frame leads to; the class does it
  step by step, with other tasks running during every await.
 */
module Router {
  import opened Text
  import opened AgentFrames
  import opened Registry
  import opened Responses

  // ---------- Before the first await ----------

  /** Trusted defaults replace the agent's arguments, but only under keys the argument model has. */
  function MergeArguments(arguments: Arguments, defaults: Arguments, fields: set<string>): Arguments {
    map k | k in arguments.Keys + defaults.Keys * fields ::
      if k in defaults && k in fields then defaults[k] else arguments[k]
  }

  lemma MergedIs(merged: Arguments, arguments: Arguments, defaults: Arguments, fields: set<string>)
    requires merged.Keys == arguments.Keys + defaults.Keys * fields
    requires forall k :: k in merged ==> merged[k] == if k in defaults && k in fields then defaults[k] else arguments[k]
    ensures merged == MergeArguments(arguments, defaults, fields)
  {
  }

  /** The arguments the handler is called with. */
  function HandlerArguments(payload: Arguments, defaults: Arguments): Arguments {
    payload + defaults
  }

  function JoinDots(loc: seq<string>): string {
    Join(loc, ".")
  }

  /** `_format_validation_error`. */
  function FormatFieldError(e: FieldError): string {
    var loc := JoinDots(e.loc);
    var msg := if e.msg.Some? then e.msg.value else "Invalid arguments";
    if loc != "" then loc + ": " + msg else msg
  }

  function ErrorFor(request: Request, error: string, codec: Codec): Envelope {
    ErrorEnvelope(request.id, request.name, error, codec)
  }

  /** What a frame comes to before its first await. */
  datatype Plan =
    | Ignore                                                            // nothing is sent
    | Escape                                                            // `ValueError` leaves `handle_frame`
    | Refuse(request: Request, envelope: Envelope)                      // an error response, no call
    | Invoke(request: Request, handler: nat, arguments: Arguments)

  function PlanRequest(request: Request, table: Table, defaults: Arguments, codec: Codec): Plan {
    if !request.clientSide then Ignore
    else if request.name !in table then
      Refuse(request, ErrorFor(request, "Unknown function '" + request.name + "'", codec))
    else
      var registered := table[request.name];
      match registered.argModel.validate(MergeArguments(request.arguments, defaults, registered.argModel.fields))
      case Rejected(error) => Refuse(request, ErrorFor(request, FormatFieldError(error), codec))
      case Valid(payload) => Invoke(request, registered.handler, HandlerArguments(payload, defaults))
  }

  function PlanFrame(raw: Value, table: Table, defaults: Arguments, codec: Codec): Plan {
    match ParseFrame(raw, codec)
    case Call(request) => PlanRequest(request, table, defaults, codec)
    case OtherFrame => Ignore
    case InvalidFrame => Ignore
    case NoFunctions => Escape
  }

  // ---------- The attempts ----------

  /** How one awaited handler call ends; a handler that itself raises `TimeoutError` counts as timed out. */
  datatype Outcome = Returned(raw: RawResult) | TimedOut | Raised

  function AttemptLimit(maxRetries: int): (n: nat)
    ensures n >= 1
  {
    1 + if maxRetries > 0 then maxRetries else 0
  }

  /** What `handle_frame` ends with. */
  datatype FrameResult =
    | Ignored
    | Escaped                                            // an exception left `handle_frame`, nothing was sent
    | Answered(envelope: Envelope, sideEffects: seq<SideEffect>)

  /** The result the deciding outcome gives. What makes the response is outside the `try`, so its exception escapes. */
  function Conclude(request: Request, outcome: Outcome, codec: Codec): FrameResult {
    match outcome
    case TimedOut => Answered(ErrorFor(request, "Function timed out", codec), [])
    case Raised => Answered(ErrorFor(request, "Function execution failed", codec), [])
    case Returned(raw) =>
      match Respond(request.id, request.name, EnsureDict(raw.content), codec)
      case None => Escaped
      case Some(envelope) => Answered(envelope, Effects(raw))
  }

  // ---------- The class ----------

  /** The socket as the ordered trace of what was sent over it. */
  class Transport {
    var sent: seq<Envelope>

    constructor ()
      ensures sent == []
    {
      sent := [];
    }

    method Send(envelope: Envelope)
      modifies this
      ensures sent == old(sent) + [envelope]
    {
      sent := sent + [envelope];
    }
  }

  datatype Settings = Settings(callTimeoutMs: nat, maxRetries: int)

  /** One await of a handler: how it ends, how long it took, and what other tasks did meanwhile. */
  datatype Await = Await(outcome: Outcome, elapsedMs: nat, defaultsAfter: Arguments, sentMeanwhile: seq<Envelope>)

  /** A call the handler saw. */
  datatype Invocation = Invocation(handler: nat, arguments: Arguments)

  /** What other tasks sent during the first `n` awaits. */
  function SentDuring(awaits: nat -> Await, n: nat): seq<Envelope> {
    if n == 0 then [] else SentDuring(awaits, n - 1) + awaits(n - 1).sentMeanwhile
  }

  function TimeAwaited(awaits: nat -> Await, n: nat): nat {
    if n == 0 then 0 else TimeAwaited(awaits, n - 1) + awaits(n - 1).elapsedMs
  }

  class FunctionCallRouter {
    const registry: FunctionRegistry
    const transport: Transport
    const settings: Settings
    const codec: Codec
    var defaultArguments: Arguments

    constructor (registry: FunctionRegistry, transport: Transport, settings: Settings, codec: Codec,
                 defaults: Option<Arguments>)
      ensures this.registry == registry && this.transport == transport
      ensures this.settings == settings && this.codec == codec
      ensures defaultArguments == if defaults.Some? then defaults.value else map[]
    {
      this.registry, this.transport, this.settings, this.codec := registry, transport, settings, codec;
      defaultArguments := if defaults.Some? then defaults.value else map[];
    }

    method SetDefaultArguments(defaults: Option<Arguments>)
      modifies this`defaultArguments
      ensures defaultArguments == if defaults.Some? then defaults.value else map[]
    {
      defaultArguments := if defaults.Some? then defaults.value else map[];
    }

    /** The loop that puts the defaults over the arguments; the keys are met in any order. */
    method OverrideArguments(arguments: Arguments, fields: set<string>) returns (merged: Arguments)
      ensures merged == MergeArguments(arguments, defaultArguments, fields)
    {
      hide MergeArguments;
      merged := arguments;
      var todo := defaultArguments.Keys;
      while todo != {}
        invariant todo <= defaultArguments.Keys
        invariant merged.Keys == arguments.Keys + (defaultArguments.Keys - todo) * fields
        invariant forall k :: k in merged ==>
                    merged[k] == if k in defaultArguments && k !in todo && k in fields then defaultArguments[k]
                                 else arguments[k]
        decreases |todo|
      {
        var key :| key in todo;
        if key in fields {
          merged := merged[key := defaultArguments[key]];
        }
        todo := todo - {key};
      }
      MergedIs(merged, arguments, defaultArguments, fields);
    }

    method ExecuteWithTimeout(handler: nat, arguments: Arguments, during: Await)
      returns (outcome: Outcome, call: Invocation)
      modifies this`defaultArguments, transport
      ensures outcome == during.outcome && call == Invocation(handler, arguments)
      ensures defaultArguments == during.defaultsAfter
      ensures transport.sent == old(transport.sent) + during.sentMeanwhile
    {
      call := Invocation(handler, arguments);
      defaultArguments := during.defaultsAfter;
      transport.sent := transport.sent + during.sentMeanwhile;
      outcome := during.outcome;
    }

    method DispatchResponse(envelope: Envelope)
      modifies transport
      ensures transport.sent == old(transport.sent) + [envelope]
    {
      transport.Send(envelope);
    }

    /** What follows the attempt that decides: a time-out error, an execution error, or the handler's own content. */
    method Finish(request: Request, outcome: Outcome) returns (result: FrameResult)
      modifies transport
      ensures result == Conclude(request, outcome, codec)
      ensures result.Escaped? <==> outcome.Returned? && !Answerable(outcome.raw.content)
      ensures transport.sent == old(transport.sent) + if result.Answered? then [result.envelope] else []
    {
      hide Answerable, Respond;
      if outcome.Returned? {
        RespondsIff(request.id, request.name, outcome.raw.content, codec);
      }
      match outcome {
        case TimedOut =>
          result := Answered(ErrorFor(request, "Function timed out", codec), []);
        case Raised =>
          result := Answered(ErrorFor(request, "Function execution failed", codec), []);
        case Returned(raw) =>
          var response := Respond(request.id, request.name, EnsureDict(raw.content), codec);
          if response.None? {
            return Escaped;
          }
          result := Answered(response.value, Effects(raw));
      }
      DispatchResponse(result.envelope);
    }

    /** The retry loop. The last await decides; only time-outs came before it. */
    method CallHandler(request: Request, handler: nat, arguments: Arguments, awaits: nat -> Await)
      returns (result: FrameResult, calls: seq<Invocation>)
      modifies this`defaultArguments, transport
      ensures 1 <= |calls| <= AttemptLimit(settings.maxRetries)
      ensures forall i :: 0 <= i < |calls| ==> calls[i] == Invocation(handler, arguments)
      ensures forall i :: 0 <= i < |calls| - 1 ==> awaits(i).outcome.TimedOut?
      ensures |calls| < AttemptLimit(settings.maxRetries) ==> !awaits(|calls| - 1).outcome.TimedOut?
      ensures awaits(|calls| - 1).outcome.TimedOut? ==>
                |calls| == 1 + if settings.maxRetries > 0 then settings.maxRetries else 0
      ensures result == Conclude(request, awaits(|calls| - 1).outcome, codec)
      ensures transport.sent == old(transport.sent) + SentDuring(awaits, |calls|)
                + if result.Answered? then [result.envelope] else []
      ensures defaultArguments == awaits(|calls| - 1).defaultsAfter
      ensures (forall i :: 0 <= i < |calls| ==> awaits(i).elapsedMs <= settings.callTimeoutMs) ==>
                TimeAwaited(awaits, |calls|) <= AttemptLimit(settings.maxRetries) * settings.callTimeoutMs
    {
      hide Conclude, AttemptLimit, TimeAwaited;
      var attempts := AttemptLimit(settings.maxRetries);
      calls := [];
      var attempt := 1;
      while attempt <= attempts
        invariant 1 <= attempt == |calls| + 1 <= attempts
        invariant forall i :: 0 <= i < |calls| ==> calls[i] == Invocation(handler, arguments)
        invariant forall i :: 0 <= i < |calls| ==> awaits(i).outcome.TimedOut?
        invariant transport.sent == old(transport.sent) + SentDuring(awaits, |calls|)
        decreases attempts - attempt
      {
        var outcome, call := ExecuteWithTimeout(handler, arguments, awaits(attempt - 1));
        calls := calls + [call];
        if outcome.TimedOut? && attempt < attempts {
          attempt := attempt + 1;
          continue;
        }
        result := Finish(request, outcome);
        AttemptLimitIs(settings.maxRetries);
        WithinTime(awaits, settings, |calls|);
        return;
      }
      assert false; // the `return None` after the loop is unreachable
      result := Ignored;
    }

    method HandleFrame(raw: Value, awaits: nat -> Await) returns (result: FrameResult, calls: seq<Invocation>)
      modifies this`defaultArguments, transport
      ensures
        var plan := PlanFrame(raw, registry.functions, old(defaultArguments), codec);
        match plan
        case Ignore => result == Ignored && calls == [] && transport.sent == old(transport.sent)
        case Escape => result == Escaped && calls == [] && transport.sent == old(transport.sent)
        case Refuse(_, envelope) =>
          result == Answered(envelope, []) && calls == [] && transport.sent == old(transport.sent) + [envelope]
        case Invoke(request, handler, arguments) =>
          && 1 <= |calls| <= AttemptLimit(settings.maxRetries)
          && (forall i :: 0 <= i < |calls| ==> calls[i] == Invocation(handler, arguments))
          && (forall i :: 0 <= i < |calls| - 1 ==> awaits(i).outcome.TimedOut?)
          && (|calls| < AttemptLimit(settings.maxRetries) ==> !awaits(|calls| - 1).outcome.TimedOut?)
          && (awaits(|calls| - 1).outcome.TimedOut? ==>
                |calls| == 1 + if settings.maxRetries > 0 then settings.maxRetries else 0)
          && result == Conclude(request, awaits(|calls| - 1).outcome, codec)
          && transport.sent == old(transport.sent) + SentDuring(awaits, |calls|)
               + (if result.Answered? then [result.envelope] else [])
          && ((forall i :: 0 <= i < |calls| ==> awaits(i).elapsedMs <= settings.callTimeoutMs) ==>
                TimeAwaited(awaits, |calls|) <= AttemptLimit(settings.maxRetries) * settings.callTimeoutMs)
    {
      hide ParseFrame, MergeArguments, ErrorFor, FormatFieldError, Conclude, AttemptLimit, Truthy;
      calls := [];
      var parsed := ParseFrame(raw, codec);
      if parsed.NoFunctions? {
        return Escaped, [];
      }
      if !parsed.Call? {
        return Ignored, [];
      }
      var request := parsed.request;
      if !request.clientSide {
        return Ignored, [];
      }
      var found := registry.Get(request.name);
      if found.None? {
        result := Answered(ErrorFor(request, "Unknown function '" + request.name + "'", codec), []);
        DispatchResponse(result.envelope);
        return;
      }
      var registered := found.value;
      var arguments := OverrideArguments(request.arguments, registered.argModel.fields);
      var validation := registered.argModel.validate(arguments);
      if validation.Rejected? {
        result := Answered(ErrorFor(request, FormatFieldError(validation.error), codec), []);
        DispatchResponse(result.envelope);
        return;
      }
      var merged := HandlerArguments(validation.payload, defaultArguments);
      if "customer_contact" in defaultArguments && Truthy(defaultArguments["customer_contact"])
         && "customer_contact" in registered.argModel.fields {
        CallerNumberAlreadyThere(validation.payload, defaultArguments);
        merged := merged["customer_contact" := defaultArguments["customer_contact"]];
      }
      result, calls := CallHandler(request, registered.handler, merged, awaits);
    }
  }

  // ---------- What the plan promises ----------

  /** Who is refused without a look at the arguments, and who is not answered at all. */
  lemma UnknownIsRefused(request: Request, table: Table, defaults: Arguments, codec: Codec)
    ensures PlanRequest(request, table, defaults, codec) == Ignore <==> !request.clientSide
    ensures request.clientSide && request.name !in table ==>
              PlanRequest(request, table, defaults, codec)
              == Refuse(request, ErrorEnvelope(request.id, request.name, "Unknown function '" + request.name + "'",
                  codec))
  {
  }

  /**
    What becomes of a client-side call of a known function, `arguments` being the agent's with the trusted keys
    overridden: refused with the first error as the model words it, or made, of the handler registered under the name
    and with the validated payload overridden by the defaults.
   */
  lemma PlanIs(request: Request, table: Table, defaults: Arguments, codec: Codec, arguments: Arguments)
    requires request.clientSide && request.name in table
    requires arguments.Keys == request.arguments.Keys + defaults.Keys * table[request.name].argModel.fields
    requires forall k <- arguments ::
               arguments[k] == if k in defaults && k in table[request.name].argModel.fields then defaults[k]
                               else request.arguments[k]
    ensures var plan := PlanRequest(request, table, defaults, codec);
            match table[request.name].argModel.validate(arguments)
            case Valid(payload) =>
              && plan.Invoke? && plan.request == request && plan.handler == table[request.name].handler
              && plan.arguments.Keys == payload.Keys + defaults.Keys
              && (forall k <- payload :: k !in defaults ==> plan.arguments[k] == payload[k])
              && (forall k <- defaults :: plan.arguments[k] == defaults[k])
            case Rejected(error) =>
              var message := if error.msg.Some? then error.msg.value else "Invalid arguments";
              var place := Join(error.loc, ".");
              plan == Refuse(request, ErrorEnvelope(request.id, request.name,
                                                    if place == "" then message else place + ": " + message, codec))
  {
    MergedIs(arguments, request.arguments, defaults, table[request.name].argModel.fields);
    hide MergeArguments, ErrorEnvelope;
  }

  /** A frame leaves the router with an exception exactly when it is a call without a function. */
  lemma EscapesIff(raw: Value, table: Table, defaults: Arguments, codec: Codec)
    ensures PlanFrame(raw, table, defaults, codec) == Escape <==> LacksFunction(raw)
    ensures forall request :: ParseFrame(raw, codec) == Call(request) ==>
              PlanFrame(raw, table, defaults, codec) == PlanRequest(request, table, defaults, codec)
    ensures ParseFrame(raw, codec) in {OtherFrame, InvalidFrame} ==> PlanFrame(raw, table, defaults, codec) == Ignore
  {
    KindsOfFrames(raw, codec);
    hide ParseFrame, LacksFunction;
  }

  lemma AttemptLimitIs(maxRetries: int)
    ensures maxRetries <= 0 ==> AttemptLimit(maxRetries) == 1
    ensures maxRetries > 0 ==> AttemptLimit(maxRetries) == 1 + maxRetries
  {
  }

  /** The answer to each outcome: its text, under the request's id and name, and the side effects that go with it. */
  lemma AnswerIs(request: Request, outcome: Outcome, codec: Codec)
    ensures var result := Conclude(request, outcome, codec);
            match outcome
            case TimedOut =>
              result == Answered(ErrorEnvelope(request.id, request.name, "Function timed out", codec), [])
            case Raised =>
              result == Answered(ErrorEnvelope(request.id, request.name, "Function execution failed", codec), [])
            case Returned(raw) =>
              && (result.Escaped? <==> !Answerable(raw.content))
              && (result.Answered? ==>
                    && result.envelope.kind == "FunctionCallResponse"
                    && result.envelope.id == request.id && result.envelope.name == request.name
                    && result.sideEffects == (if raw.WithEffects? then raw.effects else [])
                    && (!raw.content.PyDict? ==>
                          JsonText(raw.content, codec).Some?
                          && result.envelope.content
                             == "{" + (codec.quote("result") + ": " + JsonText(raw.content, codec).value) + "}")
                    && (raw.content.PyDict? && Distinct(raw.content.entries)
                        && (forall e <- raw.content.entries :: e.key.TextKey?) ==>
                          JsonText(raw.content, codec) == Some(result.envelope.content)))
  {
    hide Answerable, JsonText, Validated, Distinct;
    if outcome.Returned? {
      var content := outcome.raw.content;
      RespondsIff(request.id, request.name, content, codec);
      if content.PyDict? {
        if Distinct(content.entries) && forall e <- content.entries :: e.key.TextKey? {
          KeptAsIs(content.entries);
        }
      } else {
        KeptAsIs([PyEntry(TextKey("result"), content)]);
        OneEntryText("result", content, codec);
      }
    }
  }

  /** Enforcing the caller number after the merge changes nothing: the merge has put it there. */
  lemma CallerNumberAlreadyThere(payload: Arguments, defaults: Arguments)
    requires "customer_contact" in defaults
    ensures HandlerArguments(payload, defaults)["customer_contact" := defaults["customer_contact"]]
         == HandlerArguments(payload, defaults)
  {
  }

  /** The agent cannot set a key that the defaults set. */
  lemma DefaultsAlwaysWin(request: Request, table: Table, defaults: Arguments, codec: Codec)
    ensures var plan := PlanRequest(request, table, defaults, codec);
            plan.Invoke? ==> forall k :: k in defaults ==> k in plan.arguments && plan.arguments[k] == defaults[k]
  {
  }

  predicate AgreeOutside(a: Arguments, b: Arguments, keys: set<string>) {
    a.Keys - keys == b.Keys - keys && forall k :: k in a && k !in keys ==> k in b && a[k] == b[k]
  }

  /**
    Arguments under keys that are both defaults and model fields do not matter: two requests that differ in nothing
    else get the same verdict, the same error text, and the same call.
   */
  lemma TrustedKeysDoNotLeak(a: Request, b: Request, table: Table, defaults: Arguments, codec: Codec)
    requires a.name in table
    requires b == a.(arguments := b.arguments)
    requires AgreeOutside(a.arguments, b.arguments, defaults.Keys * table[a.name].argModel.fields)
    ensures var p, q := PlanRequest(a, table, defaults, codec), PlanRequest(b, table, defaults, codec);
            match p
            case Invoke(_, handler, arguments) => q == Invoke(b, handler, arguments)
            case Refuse(_, envelope) => q == Refuse(b, envelope)
            case Ignore => q.Ignore?
            case Escape => false
  {
    var fields := table[a.name].argModel.fields;
    assert MergeArguments(a.arguments, defaults, fields) == MergeArguments(b.arguments, defaults, fields) by {
      var trusted := defaults.Keys * fields;
      assert forall k :: k !in trusted ==> (k in a.arguments.Keys <==> k in a.arguments.Keys - trusted);
      assert forall k :: k !in trusted ==> (k in b.arguments.Keys <==> k in b.arguments.Keys - trusted);
    }
  }

  /** The awaited time is bounded when a cancelled handler stops. */
  lemma {:induction false} AwaitedTimeBounded(awaits: nat -> Await, settings: Settings, n: nat)
    requires n <= AttemptLimit(settings.maxRetries)
    requires forall i :: 0 <= i < n ==> awaits(i).elapsedMs <= settings.callTimeoutMs
    ensures TimeAwaited(awaits, n) <= n * settings.callTimeoutMs
    ensures n * settings.callTimeoutMs <= AttemptLimit(settings.maxRetries) * settings.callTimeoutMs
  {
    if n > 0 {
      AwaitedTimeBounded(awaits, settings, n - 1);
      OneMore(n - 1, settings.callTimeoutMs);
    }
    Monotone(n, AttemptLimit(settings.maxRetries), settings.callTimeoutMs);
  }

  lemma WithinTime(awaits: nat -> Await, settings: Settings, n: nat)
    requires n <= AttemptLimit(settings.maxRetries)
    ensures (forall i :: 0 <= i < n ==> awaits(i).elapsedMs <= settings.callTimeoutMs) ==>
              TimeAwaited(awaits, n) <= AttemptLimit(settings.maxRetries) * settings.callTimeoutMs
  {
    if forall i :: 0 <= i < n ==> awaits(i).elapsedMs <= settings.callTimeoutMs {
      AwaitedTimeBounded(awaits, settings, n);
    }
  }

  lemma OneMore(n: nat, t: nat)
    ensures (n + 1) * t == n * t + t
  {
  }

  lemma {:induction false} Monotone(a: nat, b: nat, t: nat)
    requires a <= b
    ensures a * t <= b * t
    decreases b - a
  {
    if a < b {
      Monotone(a + 1, b, t);
      OneMore(a, t);
    }
  }
}
