/** The registry of callable functions (`app/agent_fc/registry.py`). */
module Registry {
  import opened Text
  import opened AgentFrames

  /** The first entry of a Pydantic `ValidationError`. */
  datatype FieldError = FieldError(loc: seq<string>, msg: Option<string>)

  /** `model_validate(...)` followed by `model_dump()`, or the error it raised. */
  datatype Validation = Valid(payload: Arguments) | Rejected(error: FieldError)

  datatype ArgModel = ArgModel(fields: set<string>, validate: Arguments -> Validation)

  datatype Registered = Registered(name: string, handler: nat, argModel: ArgModel)

  /** What a caller passes as a handler and as an argument model; the source checks both at run time. */
  datatype Handler = Callable(id: nat) | NotCallable

  datatype ModelArgument = Model(argModel: ArgModel) | NotAModel

  datatype RegisterResult = Accepted | AlreadyRegistered | BadHandler | BadModel

  type Table = map<string, Registered>

  /** What `register` makes of a table. */
  function Register(table: Table, name: string, handler: Handler, model: ModelArgument): (Table, RegisterResult) {
    if name in table then (table, AlreadyRegistered)
    else if handler.NotCallable? then (table, BadHandler)
    else if model.NotAModel? then (table, BadModel)
    else (table[name := Registered(name, handler.id, model.argModel)], Accepted)
  }

  datatype Registration = Registration(name: string, handler: Handler, model: ModelArgument)

  function RegisterAll(table: Table, calls: seq<Registration>): Table
    decreases |calls|
  {
    if calls == [] then table
    else RegisterAll(Register(table, calls[0].name, calls[0].handler, calls[0].model).0, calls[1..])
  }

  predicate Acceptable(r: Registration) {
    r.handler.Callable? && r.model.Model?
  }

  /** After any calls a name is bound to what it was bound to before, or else to its first acceptable registration. */
  lemma {:induction false} FirstRegistrationWins(table: Table, calls: seq<Registration>, name: string)
    ensures name in table ==> name in RegisterAll(table, calls) && RegisterAll(table, calls)[name] == table[name]
    ensures name !in table ==>
              (name in RegisterAll(table, calls) <==>
               exists i :: 0 <= i < |calls| && calls[i].name == name && Acceptable(calls[i]))
    ensures forall i :: name !in table && 0 <= i < |calls| && calls[i].name == name && Acceptable(calls[i])
                        && (forall j :: 0 <= j < i ==> !(calls[j].name == name && Acceptable(calls[j]))) ==>
              name in RegisterAll(table, calls)
              && RegisterAll(table, calls)[name] == Registered(name, calls[i].handler.id, calls[i].model.argModel)
    decreases |calls|
  {
    if calls != [] {
      var next := Register(table, calls[0].name, calls[0].handler, calls[0].model).0;
      FirstRegistrationWins(next, calls[1..], name);
      assert forall i :: 0 < i < |calls| ==> calls[i] == calls[1..][i - 1];
      assert forall i :: 0 <= i < |calls[1..]| ==> calls[1..][i] == calls[i + 1];
    }
  }

  class FunctionRegistry {
    var functions: Table

    constructor ()
      ensures functions == map[]
    {
      functions := map[];
    }

    method RegisterFunction(name: string, handler: Handler, model: ModelArgument) returns (result: RegisterResult)
      modifies this
      ensures (functions, result) == Register(old(functions), name, handler, model)
      ensures result == if name in old(functions) then AlreadyRegistered
                        else if handler.NotCallable? then BadHandler
                        else if model.NotAModel? then BadModel else Accepted
      ensures result == Accepted ==> functions == old(functions)[name := Registered(name, handler.id, model.argModel)]
      ensures result != Accepted ==> functions == old(functions)
    {
      if name in functions {
        return AlreadyRegistered;
      }
      if handler.NotCallable? {
        return BadHandler;
      }
      if model.NotAModel? {
        return BadModel;
      }
      functions := functions[name := Registered(name, handler.id, model.argModel)];
      return Accepted;
    }

    /** `None` is the `KeyError`. */
    method Get(name: string) returns (found: Option<Registered>)
      ensures found.Some? <==> name in functions
      ensures found.Some? ==> found.value == functions[name]
    {
      if name !in functions {
        return None;
      }
      return Some(functions[name]);
    }

    /** The strictly sorted listing of exactly the bound names; by `SortedListingUnique` there is only one. */
    method ListNames() returns (names: seq<string>)
      ensures SortedListing(names, functions.Keys)
    {
      names := Sorted(functions.Keys);
    }
  }
}
