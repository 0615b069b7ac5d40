/** What a handler may return, and the response made of it (`app/agent_fc/models.py`, `responses.py`, `router.py`). */
module Responses {
  import opened Text
  import opened AgentFrames

  // ---------- Python values ----------

  /** A dictionary key; bytes come with their UTF-8 decoding, if they have one. */
  datatype PyKey =
    | TextKey(text: string)
    | BytesKey(decoded: Option<string>)
    | IntKey(n: int)
    | FloatKey(x: real)
    | BoolKey(b: bool)
    | NoneKey
    | OtherKey

  /**
    A value; tuples count as lists. `PyObject` is anything `json.dumps` hands to `_json_default`; `shown` is the text
    that makes of it, unless it raises.
   */
  datatype PyValue =
    | PyNone
    | PyBool(b: bool)
    | PyInt(n: int)
    | PyFloat(x: real)
    | PyText(text: string)
    | PyList(items: seq<PyValue>)
    | PyDict(entries: seq<PyEntry>)
    | PyDecimal(x: real)
    | PyObject(shown: Option<string>)

  datatype PyEntry = PyEntry(key: PyKey, value: PyValue)

  function Width(v: PyValue): nat {
    match v
    case PyList(items) => |items|
    case PyDict(entries) => |entries|
    case _ => 0
  }

  function Child(v: PyValue, i: nat): (c: PyValue)
    requires i < Width(v)
    ensures c < v
  {
    match v
    case PyList(items) => items[i]
    case PyDict(entries) => entries[i].value
  }

  // ---------- Pydantic and `json.dumps` ----------

  /** What Pydantic reads as the `str` of a key of `dict[str, Any]`. */
  function StringKey(k: PyKey): Option<string> {
    match k
    case TextKey(text) => Some(text)
    case BytesKey(decoded) => decoded
    case _ => None
  }

  /** No key twice. */
  predicate Distinct(d: seq<PyEntry>) {
    forall i, j :: 0 <= i < j < |d| ==> d[i].key != d[j].key
  }

  /** Assignment to a key of a dictionary with string keys. */
  function Put(d: seq<PyEntry>, key: string, value: PyValue): (r: seq<PyEntry>)
    requires Distinct(d)
    ensures Distinct(r)
    ensures forall e: PyEntry :: e in r <==> e == PyEntry(TextKey(key), value) || (e in d && e.key != TextKey(key))
  {
    if d == [] then [PyEntry(TextKey(key), value)]
    else if d[0].key == TextKey(key) then [PyEntry(TextKey(key), value)] + d[1..]
    else
      var rest := Put(d[1..], key, value);
      assert forall i :: 0 <= i < |rest| ==> rest[i] in rest;
      [d[0]] + rest
  }

  /**
    The `content` of a `FunctionCallResponse`: the dictionary with its keys read as strings, or a `ValidationError`.
   */
  function Validated(entries: seq<PyEntry>): (r: Option<seq<PyEntry>>)
    ensures r.Some? ==> Distinct(r.value)
  {
    if entries == [] then Some([])
    else
      var last := entries[|entries| - 1];
      match (Validated(entries[..|entries| - 1]), StringKey(last.key))
      case (Some(d), Some(key)) => Some(Put(d, key, last.value))
      case _ => None
  }

  /** The text `json.dumps` gives a key before quoting it; for other types it raises `TypeError`. */
  function KeyText(k: PyKey, codec: Codec): Option<string> {
    match k
    case TextKey(text) => Some(text)
    case IntKey(n) => Some(IntText(n))
    case FloatKey(x) => Some(codec.floatText(x))
    case BoolKey(b) => Some(if b then "true" else "false")
    case NoneKey => Some("null")
    case BytesKey(_) => None
    case OtherKey => None
  }

  /** `json.dumps(v, default=_json_default)`; nothing is its exception. */
  function JsonText(v: PyValue, codec: Codec): Option<string>
    decreases v, Width(v) + 1
  {
    match v
    case PyNone => Some("null")
    case PyBool(b) => Some(if b then "true" else "false")
    case PyInt(n) => Some(IntText(n))
    case PyFloat(x) => Some(codec.floatText(x))
    case PyText(text) => Some(codec.quote(text))
    case PyDecimal(x) => Some(codec.floatText(x))
    case PyObject(shown) => if shown.Some? then Some(codec.quote(shown.value)) else None
    case PyList(items) =>
      var inner := InnerText(v, |items|, codec);
      if inner.Some? then Some("[" + inner.value + "]") else None
    case PyDict(entries) =>
      var inner := InnerText(v, |entries|, codec);
      if inner.Some? then Some("{" + inner.value + "}") else None
  }

  /** The first `n` items of a list or dictionary. */
  function InnerText(v: PyValue, n: nat, codec: Codec): Option<string>
    requires n <= Width(v)
    decreases v, n
  {
    if n == 0 then Some("")
    else
      var separator := if n == 1 then "" else ", ";
      match (InnerText(v, n - 1, codec), Label(v, n - 1, codec), JsonText(Child(v, n - 1), codec))
      case (Some(before), Some(head), Some(text)) => Some(before + separator + head + text)
      case _ => None
  }

  function Label(v: PyValue, i: nat, codec: Codec): Option<string>
    requires i < Width(v)
  {
    if v.PyList? then Some("")
    else
      match KeyText(v.entries[i].key, codec)
      case Some(text) => Some(codec.quote(text) + ": ")
      case None => None
  }

  // ---------- The response ----------

  /** The message put on the socket; `content` is JSON text. */
  datatype Envelope = Envelope(kind: string, id: string, name: string, content: string)

  datatype SideEffect = SideEffect(payload: Arguments, delaySeconds: real)

  /** A handler's result: a value, or an `AgentFunctionResult` around one. */
  datatype RawResult = Bare(content: PyValue) | WithEffects(content: PyValue, effects: seq<SideEffect>)

  /** `_ensure_dict`. */
  function EnsureDict(content: PyValue): seq<PyEntry> {
    if content.PyDict? then content.entries else [PyEntry(TextKey("result"), content)]
  }

  /** The side effects half of `_normalize_result`. */
  function Effects(raw: RawResult): seq<SideEffect> {
    match raw
    case Bare(_) => []
    case WithEffects(_, effects) => effects
  }

  /** `FunctionCallResponse(...)` and `to_wire`; nothing is the exception either may raise. */
  function Respond(id: string, name: string, content: seq<PyEntry>, codec: Codec): Option<Envelope> {
    match Validated(content)
    case None => None
    case Some(d) =>
      match JsonText(PyDict(d), codec)
      case None => None
      case Some(text) => Some(Envelope("FunctionCallResponse", id, name, text))
  }

  /** `_error_response` on the wire. */
  function ErrorEnvelope(id: string, name: string, error: string, codec: Codec): Envelope {
    Envelope("FunctionCallResponse", id, name, "{" + (codec.quote("error") + ": " + codec.quote(error)) + "}")
  }

  // ---------- What can be responded with ----------

  /** The value and everything inside it. */
  function Parts(v: PyValue): seq<PyValue>
    decreases v, Width(v) + 1
  {
    [v] + InnerParts(v, Width(v))
  }

  function InnerParts(v: PyValue, n: nat): seq<PyValue>
    requires n <= Width(v)
    decreases v, n
  {
    if n == 0 then [] else InnerParts(v, n - 1) + Parts(Child(v, n - 1))
  }

  /** No object that cannot be shown, and no dictionary key of a type JSON has no text for. */
  predicate Plain(v: PyValue) {
    && (v.PyObject? ==> v.shown.Some?)
    && (v.PyDict? ==> forall e <- v.entries :: !e.key.BytesKey? && !e.key.OtherKey?)
  }

  predicate Printable(v: PyValue) {
    forall p <- Parts(v) :: Plain(p)
  }

  /** No later entry is read as the same string. */
  predicate Survives(entries: seq<PyEntry>, i: nat)
    requires i < |entries|
  {
    forall j :: i < j < |entries| ==> StringKey(entries[j].key) != StringKey(entries[i].key)
  }

  /**
    A handler's value can be responded with: all keys of a dictionary are strings, or bytes that decode to one, and
    the values it keeps are printable; any other value is printable itself.
   */
  predicate Answerable(content: PyValue) {
    if content.PyDict? then
      && (forall e <- content.entries :: StringKey(e.key).Some?)
      && (forall i :: 0 <= i < |content.entries| && Survives(content.entries, i) ==>
            Printable(content.entries[i].value))
    else Printable(content)
  }

  /** Exactly the printable values have a JSON text. */
  lemma {:induction false} PrintsIff(v: PyValue, codec: Codec)
    ensures JsonText(v, codec).Some? <==> Printable(v)
    decreases v, Width(v) + 1
  {
    InnerPrintsIff(v, Width(v), codec);
    LabelsIff(v, codec);
    assert forall p :: p in Parts(v) <==> p == v || p in InnerParts(v, Width(v));
    assert Printable(v) <==> Plain(v) && forall p <- InnerParts(v, Width(v)) :: Plain(p);
    hide Parts, InnerParts, Label;
    if v.PyList? || v.PyDict? {
      assert JsonText(v, codec).Some? <==> InnerText(v, Width(v), codec).Some?;
    } else {
      assert JsonText(v, codec).Some? <==> Plain(v);
    }
  }

  lemma LabelsIff(v: PyValue, codec: Codec)
    ensures (forall i :: 0 <= i < Width(v) ==> Label(v, i, codec).Some?)
       <==> (v.PyDict? ==> forall e <- v.entries :: !e.key.BytesKey? && !e.key.OtherKey?)
  {
    if v.PyDict? {
      assert forall i :: 0 <= i < |v.entries| ==> v.entries[i] in v.entries;
      assert forall i :: 0 <= i < |v.entries| ==>
          (Label(v, i, codec).Some? <==> !v.entries[i].key.BytesKey? && !v.entries[i].key.OtherKey?);
    }
  }

  lemma {:induction false} InnerPrintsIff(v: PyValue, n: nat, codec: Codec)
    requires n <= Width(v)
    ensures InnerText(v, n, codec).Some?
       <==> (forall p <- InnerParts(v, n) :: Plain(p)) && (forall i :: 0 <= i < n ==> Label(v, i, codec).Some?)
    decreases v, n
  {
    if n > 0 {
      InnerPrintsIff(v, n - 1, codec);
      PrintsIff(Child(v, n - 1), codec);
      assert forall p :: p in InnerParts(v, n) <==> p in InnerParts(v, n - 1) || p in Parts(Child(v, n - 1));
    }
  }

  /** Entry `i` is the last read as its string, and `e` is what becomes of it. */
  predicate Becomes(entries: seq<PyEntry>, i: int, e: PyEntry) {
    0 <= i < |entries| && Survives(entries, i) && StringKey(entries[i].key).Some?
    && e == PyEntry(TextKey(StringKey(entries[i].key).value), entries[i].value)
  }

  /** Validation succeeds when every key reads as a string, and keeps the last entry of each string. */
  lemma {:induction false} ValidatedIs(entries: seq<PyEntry>)
    ensures Validated(entries).Some? <==> forall e <- entries :: StringKey(e.key).Some?
    ensures Validated(entries).Some? ==>
              forall e: PyEntry :: e in Validated(entries).value <==> exists i :: Becomes(entries, i, e)
  {
    if entries != [] {
      var n := |entries| - 1;
      var before, last := entries[..n], entries[n];
      ValidatedIs(before);
      assert entries == before + [last];
      if Validated(entries).Some? {
        var d, key := Validated(before).value, StringKey(last.key).value;
        forall e: PyEntry ensures e in Put(d, key, last.value) <==> exists i :: Becomes(entries, i, e) {
          assert Becomes(entries, n, PyEntry(TextKey(key), last.value));
          if e.key != TextKey(key) {
            assert forall i :: 0 <= i < n ==> (Becomes(entries, i, e) <==> Becomes(before, i, e));
          } else {
            assert forall i :: Becomes(entries, i, e) ==> i == n;
          }
        }
      }
    }
  }

  lemma {:induction false} InnerPrintable(v: PyValue, n: nat)
    requires n <= Width(v)
    ensures (forall p <- InnerParts(v, n) :: Plain(p)) <==> forall i :: 0 <= i < n ==> Printable(Child(v, i))
  {
    hide Plain, Parts;
    if n > 0 {
      InnerPrintable(v, n - 1);
      assert forall p :: p in InnerParts(v, n) <==> p in InnerParts(v, n - 1) || p in Parts(Child(v, n - 1));
    }
  }

  /** A dictionary is printable when its keys are and all its values are. */
  lemma DictPrintable(d: seq<PyEntry>)
    requires forall e <- d :: e.key.TextKey?
    ensures Printable(PyDict(d)) <==> forall e <- d :: Printable(e.value)
  {
    var v := PyDict(d);
    InnerPrintable(v, |d|);
    assert forall p :: p in Parts(v) <==> p == v || p in InnerParts(v, |d|);
    assert Printable(v) <==> forall p <- InnerParts(v, |d|) :: Plain(p);
    hide Parts, InnerParts, Printable;
    assert forall i :: 0 <= i < |d| ==> Child(v, i) == d[i].value && d[i] in d;
  }

  /** A response can be made of a handler's value exactly when the value is answerable. */
  lemma RespondsIff(id: string, name: string, content: PyValue, codec: Codec)
    ensures Respond(id, name, EnsureDict(content), codec).Some? <==> Answerable(content)
  {
    var entries := EnsureDict(content);
    ValidatedIs(entries);
    if Validated(entries).Some? {
      var d := Validated(entries).value;
      PrintsIff(PyDict(d), codec);
      DictPrintable(d);
      hide Printable, JsonText, Validated;
      if content.PyDict? {
        forall i | 0 <= i < |entries| && Survives(entries, i)
          ensures PyEntry(TextKey(StringKey(entries[i].key).value), entries[i].value) in d
        {
          assert entries[i] in entries;
          assert Becomes(entries, i, PyEntry(TextKey(StringKey(entries[i].key).value), entries[i].value));
        }
      } else {
        assert Becomes(entries, 0, PyEntry(TextKey("result"), content));
      }
    } else {
      assert content.PyDict?;
    }
  }

  /** The response to an error is never refused. */
  lemma ErrorResponds(id: string, name: string, error: string, codec: Codec)
    ensures Respond(id, name, [PyEntry(TextKey("error"), PyText(error))], codec)
         == Some(ErrorEnvelope(id, name, error, codec))
  {
    var content := [PyEntry(TextKey("error"), PyText(error))];
    assert content[..0] == [] && Put([], "error", PyText(error)) == content;
    assert Validated(content) == Some(content);
    ErrorText(error, codec);
  }

  /** A dictionary whose keys are distinct strings is kept as it is. */
  lemma {:induction false} KeptAsIs(entries: seq<PyEntry>)
    requires Distinct(entries) && forall e <- entries :: e.key.TextKey?
    ensures Validated(entries) == Some(entries)
  {
    if entries != [] {
      var n := |entries| - 1;
      KeptAsIs(entries[..n]);
      assert entries[n] in entries && entries == entries[..n] + [entries[n]];
      PutsLast(entries[..n], entries[n].key.text, entries[n].value);
    }
  }

  lemma {:induction false} PutsLast(d: seq<PyEntry>, key: string, value: PyValue)
    requires Distinct(d) && forall i :: 0 <= i < |d| ==> d[i].key != TextKey(key)
    ensures Put(d, key, value) == d + [PyEntry(TextKey(key), value)]
  {
    if d != [] {
      PutsLast(d[1..], key, value);
    }
  }

  // ---------- The text ----------

  /** A list is printed in brackets, its items in order, with commas between them. */
  lemma ListText(items: seq<PyValue>, texts: seq<string>, codec: Codec)
    requires |texts| == |items| && forall i :: 0 <= i < |items| ==> JsonText(items[i], codec) == Some(texts[i])
    ensures JsonText(PyList(items), codec) == Some("[" + Join(texts, ", ") + "]")
  {
    var v := PyList(items);
    InnerIs(v, texts, |items|, codec);
    assert texts[..|items|] == texts;
  }

  /** A dictionary in braces, each entry as its quoted key, a colon and its value. */
  lemma DictText(entries: seq<PyEntry>, texts: seq<string>, codec: Codec)
    requires |texts| == |entries|
    requires forall i :: 0 <= i < |entries| ==>
               && KeyText(entries[i].key, codec).Some? && JsonText(entries[i].value, codec).Some?
               && texts[i] == codec.quote(KeyText(entries[i].key, codec).value) + ": "
                              + JsonText(entries[i].value, codec).value
    ensures JsonText(PyDict(entries), codec) == Some("{" + Join(texts, ", ") + "}")
  {
    var v := PyDict(entries);
    InnerIs(v, texts, |entries|, codec);
    assert texts[..|entries|] == texts;
  }

  lemma {:induction false} InnerIs(v: PyValue, texts: seq<string>, n: nat, codec: Codec)
    requires n <= Width(v) == |texts|
    requires forall i :: 0 <= i < Width(v) ==>
               && Label(v, i, codec).Some? && JsonText(Child(v, i), codec).Some?
               && texts[i] == Label(v, i, codec).value + JsonText(Child(v, i), codec).value
    ensures InnerText(v, n, codec) == Some(Join(texts[..n], ", "))
    decreases n
  {
    hide JsonText, Label;
    if n > 0 {
      InnerIs(v, texts, n - 1, codec);
      JoinLast(texts[..n - 1], texts[n - 1], ", ");
      assert texts[..n] == texts[..n - 1] + [texts[n - 1]];
      var before, separator := Join(texts[..n - 1], ", "), if n == 1 then "" else ", ";
      var head, text := Label(v, n - 1, codec).value, JsonText(Child(v, n - 1), codec).value;
      assert InnerText(v, n, codec) == Some(before + separator + head + text);
      assert before + separator + head + text == before + separator + texts[n - 1];
      if n == 1 {
        assert before + separator + texts[n - 1] == texts[n - 1];
      } else {
        assert texts[..n - 1] != [];
      }
      assert Join(texts[..n], ", ") == before + separator + texts[n - 1];
    }
  }

  lemma JoinLast(parts: seq<string>, last: string, sep: string)
    ensures Join(parts + [last], sep) == (if parts == [] then last else Join(parts, sep) + sep + last)
  {
    if parts == [] {
      assert parts + [last] == [last];
    } else {
      JoinConcat(parts, [last], sep);
      assert Join([last], sep) == last;
    }
  }

  /** The leaves. */
  lemma LeafText(v: PyValue, codec: Codec)
    requires !v.PyList? && !v.PyDict?
    ensures JsonText(v, codec)
         == match v
            case PyNone => Some("null")
            case PyBool(b) => Some(if b then "true" else "false")
            case PyInt(n) => Some(IntText(n))
            case PyFloat(x) => Some(codec.floatText(x))
            case PyDecimal(x) => Some(codec.floatText(x))
            case PyText(text) => Some(codec.quote(text))
            case PyObject(shown) => if shown.Some? then Some(codec.quote(shown.value)) else None
            case _ => None
  {
  }

  /** The text of a key, and the string Pydantic reads it as, by its type. */
  lemma KeysAre(k: PyKey, codec: Codec)
    ensures KeyText(k, codec)
         == match k
            case TextKey(text) => Some(text)
            case IntKey(n) => Some(IntText(n))
            case FloatKey(x) => Some(codec.floatText(x))
            case BoolKey(b) => Some(if b then "true" else "false")
            case NoneKey => Some("null")
            case _ => None
    ensures StringKey(k) == if k.TextKey? then Some(k.text) else if k.BytesKey? then k.decoded else None
  {
  }

  lemma OneEntryText(key: string, value: PyValue, codec: Codec)
    ensures JsonText(PyDict([PyEntry(TextKey(key), value)]), codec)
         == if JsonText(value, codec).Some?
            then Some("{" + (codec.quote(key) + ": " + JsonText(value, codec).value) + "}") else None
  {
    var entries := [PyEntry(TextKey(key), value)];
    if JsonText(value, codec).Some? {
      var text := codec.quote(key) + ": " + JsonText(value, codec).value;
      DictText(entries, [text], codec);
      assert Join([text], ", ") == text;
    } else {
      PrintsIff(value, codec);
      PrintsIff(PyDict(entries), codec);
      DictPrintable(entries);
      assert entries[0] in entries;
    }
  }

  lemma ErrorText(error: string, codec: Codec)
    ensures JsonText(PyDict([PyEntry(TextKey("error"), PyText(error))]), codec)
         == Some("{" + (codec.quote("error") + ": " + codec.quote(error)) + "}")
  {
    OneEntryText("error", PyText(error), codec);
  }
}
