/** Frames and requests of the agent socket (`app/agent_fc/models.py`). */
module AgentFrames {
  import opened Text

  /** A JSON value. */
  datatype Value =
    | Null
    | Bool(b: bool)
    | Num(n: real)
    | Str(s: string)
    | List(items: seq<Value>)
    | Dict(entries: map<string, Value>)

  type Arguments = map<string, Value>

  /** Python's `bool(value)`. */
  predicate Truthy(v: Value) {
    match v
    case Null => false
    case Bool(b) => b
    case Num(n) => n != 0.0
    case Str(s) => s != ""
    case List(items) => items != []
    case Dict(entries) => entries != map[]
  }

  /** The library functions frames go through: `json.loads`, Pydantic's reading of a bool, JSON's strings and floats. */
  datatype Codec = Codec(loads: string -> Option<Value>, asBool: Value -> Option<bool>,
                         quote: string -> string, floatText: real -> string)

  datatype Request = Request(id: string, name: string, arguments: Arguments, clientSide: bool, ts: Option<string>)

  /** Outcome of `AgentFrame.parse`: a call, any other frame, a validation or type error, or a plain `ValueError`. */
  datatype Parsed = Call(request: Request) | OtherFrame | InvalidFrame | NoFunctions

  /** `_coerce_arguments`: an object, or a string holding one. */
  function CoerceArguments(v: Value, codec: Codec): Option<Arguments> {
    match v
    case Dict(entries) => Some(entries)
    case Str(s) =>
      (match codec.loads(s)
       case Some(Dict(entries)) => Some(entries)
       case _ => None)
    case _ => None
  }

  function RequestTimestamp(fields: Arguments): Option<Option<string>> {
    if "ts" !in fields || fields["ts"].Null? then Some(None)
    else if fields["ts"].Str? then Some(Some(fields["ts"].s))
    else None
  }

  /** `FunctionCallRequest.model_validate`: the four required fields, an optional `ts`, and nothing else. */
  function ValidateRequest(fields: Arguments, codec: Codec): Option<Request> {
    if !({"id", "name", "arguments", "client_side"} <= fields.Keys <= {"id", "name", "arguments", "client_side", "ts"})
    then None
    else if !fields["id"].Str? || !fields["name"].Str? then None
    else
      match (CoerceArguments(fields["arguments"], codec), codec.asBool(fields["client_side"]), RequestTimestamp(fields))
      case (Some(arguments), Some(clientSide), Some(ts)) =>
        Some(Request(fields["id"].s, fields["name"].s, arguments, clientSide, ts))
      case _ => None
  }

  /**
    `str(payload.get("type") or "").lower() == "functioncallrequest"`. The printed form of a value that is
    not a string never reads so, and no character outside ASCII lowers to one of these letters.
   */
  predicate IsCallType(frame: Arguments) {
    "type" in frame && frame["type"].Str? && Lower(frame["type"].s) == "functioncallrequest"
  }

  function ParseFrame(raw: Value, codec: Codec): Parsed {
    if !raw.Dict? then InvalidFrame
    else if !IsCallType(raw.entries) then OtherFrame
    else
      var frame := raw.entries;
      if "functions" in frame && frame["functions"].List? && frame["functions"].items != []
         && frame["functions"].items[0].Dict? then
        match ValidateRequest(frame["functions"].items[0].entries, codec)
        case Some(request) => Call(request)
        case None => InvalidFrame
      else NoFunctions
  }

  /** The fields an agent sends for a request. */
  function FieldsOf(request: Request): Arguments {
    var fields: Arguments := map["id" := Str(request.id), "name" := Str(request.name),
                                 "arguments" := Dict(request.arguments), "client_side" := Bool(request.clientSide)];
    if request.ts.Some? then fields["ts" := Str(request.ts.value)] else fields
  }

  /** The frame around them, with whatever further functions. */
  function FrameOf(request: Request, more: seq<Value>): Value {
    Dict(map["type" := Str("FunctionCallRequest"), "functions" := List([Dict(FieldsOf(request))] + more)])
  }

  lemma FieldsValidate(request: Request, codec: Codec)
    requires codec.asBool(Bool(request.clientSide)) == Some(request.clientSide)
    ensures ValidateRequest(FieldsOf(request), codec) == Some(request)
  {
    hide Lower;
  }

  /** Parsing gives the request back, the first of the functions whatever the others are. */
  lemma ParsesOwnFrames(request: Request, more: seq<Value>, codec: Codec)
    requires codec.asBool(Bool(request.clientSide)) == Some(request.clientSide)
    ensures ParseFrame(FrameOf(request, more), codec) == Call(request)
  {
    hide FieldsOf, ValidateRequest;
    FieldsValidate(request, codec);
    assert Lower("FunctionCallRequest") == "functioncallrequest";
  }

  /** `text` is the lower-case `word`, in any case. */
  predicate ReadsAs(text: string, word: string) {
    && |text| == |word|
    && forall i :: 0 <= i < |word| ==>
         text[i] == word[i] || ('a' <= word[i] <= 'z' && text[i] == word[i] - 'a' + 'A')
  }

  lemma LowerReads(text: string, word: string)
    requires forall c <- word :: !('A' <= c <= 'Z')
    ensures Lower(text) == word <==> ReadsAs(text, word)
  {
    if ReadsAs(text, word) {
      forall i | 0 <= i < |word| ensures Lower(text)[i] == word[i] {
        assert word[i] in word;
      }
    }
    if Lower(text) == word {
      forall i | 0 <= i < |word|
        ensures text[i] == word[i] || ('a' <= word[i] <= 'z' && text[i] == word[i] - 'a' + 'A')
      {
        assert Lower(text)[i] == word[i];
      }
    }
  }

  /** A frame that says it is a call. */
  predicate SaysCall(raw: Value) {
    && raw.Dict? && "type" in raw.entries
    && raw.entries["type"].Str? && ReadsAs(raw.entries["type"].s, "functioncallrequest")
  }

  /** One that does and has no object first in a list of functions. */
  predicate LacksFunction(raw: Value) {
    && SaysCall(raw)
    && (|| "functions" !in raw.entries || !raw.entries["functions"].List?
        || raw.entries["functions"].items == [] || !raw.entries["functions"].items[0].Dict?)
  }

  /** Which frames are what, besides those that `CallsAre` describes. */
  lemma KindsOfFrames(raw: Value, codec: Codec)
    ensures ParseFrame(raw, codec) == OtherFrame <==> raw.Dict? && !SaysCall(raw)
    ensures ParseFrame(raw, codec) == NoFunctions <==> LacksFunction(raw)
    ensures ParseFrame(raw, codec).Call? ==> SaysCall(raw) && !LacksFunction(raw)
  {
    hide ValidateRequest, ReadsAs;
    if raw.Dict? && "type" in raw.entries && raw.entries["type"].Str? {
      LowerReads(raw.entries["type"].s, "functioncallrequest");
    }
  }

  /** The fields of a request: these five and no other, the arguments as an object or as the JSON text of one. */
  predicate Describes(f: Arguments, request: Request, codec: Codec) {
    && {"id", "name", "arguments", "client_side"} <= f.Keys <= {"id", "name", "arguments", "client_side", "ts"}
    && f["id"] == Str(request.id) && f["name"] == Str(request.name)
    && (|| f["arguments"] == Dict(request.arguments)
        || (f["arguments"].Str? && codec.loads(f["arguments"].s) == Some(Dict(request.arguments))))
    && codec.asBool(f["client_side"]) == Some(request.clientSide)
    && (if request.ts.Some? then "ts" in f && f["ts"] == Str(request.ts.value) else "ts" in f ==> f["ts"] == Null)
  }

  lemma ValidatesIff(f: Arguments, request: Request, codec: Codec)
    ensures ValidateRequest(f, codec) == Some(request) <==> Describes(f, request, codec)
  {
    hide Lower;
  }

  /**
    Exactly these frames are calls: any case of the type, and a first function that describes the request, whatever
    else the frame and the list hold.
   */
  lemma CallsAre(raw: Value, request: Request, codec: Codec)
    ensures ParseFrame(raw, codec) == Call(request)
       <==> exists frame: Arguments, f: Arguments, more: seq<Value> ::
              && raw == Dict(frame) && SaysCall(raw)
              && "functions" in frame && frame["functions"] == List([Dict(f)] + more)
              && Describes(f, request, codec)
  {
    KindsOfFrames(raw, codec);
    hide Describes, ValidateRequest, SaysCall, IsCallType;
    if ParseFrame(raw, codec) == Call(request) {
      var items := raw.entries["functions"].items;
      assert items == [Dict(items[0].entries)] + items[1..];
      ValidatesIff(items[0].entries, request, codec);
    }
    forall frame: Arguments, f: Arguments, more: seq<Value> |
      && raw == Dict(frame) && SaysCall(raw)
      && "functions" in frame && frame["functions"] == List([Dict(f)] + more)
      && Describes(f, request, codec)
      ensures ParseFrame(raw, codec) == Call(request)
    {
      ValidatesIff(f, request, codec);
    }
  }
}
