/**
  Many frames in flight. Between two awaits a task runs undivided, so a run is any sequence of these events: a frame
  arrives, an await of some request ends, a task is cancelled, the defaults are replaced, a function is registered.
 */
module RouterRuns {
  import opened Text
  import opened AgentFrames
  import opened Registry
  import opened Responses
  import opened Router

  datatype Event =
    | FrameIn(raw: Value)
    | AwaitEnds(ticket: nat, outcome: Outcome)
    | Cancel(ticket: nat)
    | SetDefaults(defaults: Option<Arguments>)
    | RegisterFunction(registration: Registration)

  datatype Fate = Waiting | Settled(result: FrameResult) | Cancelled

  /** A client-side request; its ticket is its position in the order of arrival. */
  datatype Tracked = Tracked(plan: Plan, timeouts: nat, fate: Fate)

  datatype Sent = Sent(ticket: nat, envelope: Envelope)

  datatype State = State(table: Table, defaults: Arguments, tracked: seq<Tracked>, sent: seq<Sent>)

  datatype Config = Config(settings: Settings, codec: Codec)

  predicate Concerns(plan: Plan) {
    plan.Refuse? || plan.Invoke?
  }

  function Arrive(s: State, raw: Value, c: Config): State {
    var plan := PlanFrame(raw, s.table, s.defaults, c.codec);
    match plan
    case Refuse(_, envelope) =>
      s.(tracked := s.tracked + [Tracked(plan, 0, Settled(Answered(envelope, [])))],
         sent := s.sent + [Sent(|s.tracked|, envelope)])
    case Invoke(_, _, _) => s.(tracked := s.tracked + [Tracked(plan, 0, Waiting)])
    case _ => s
  }

  datatype Input = Ends(outcome: Outcome) | Stop

  predicate InFlight(r: Tracked) {
    r.fate.Waiting? && r.plan.Invoke?
  }

  /**
    What one input does to one request: it is retried, settled or cancelled. A request no longer in flight ignores it.
   */
  function TakeInput(r: Tracked, input: Input, c: Config): Tracked {
    if !InFlight(r) then r
    else
      match input
      case Stop => r.(fate := Cancelled)
      case Ends(outcome) =>
        if outcome.TimedOut? && r.timeouts + 1 < AttemptLimit(c.settings.maxRetries) then r.(timeouts := r.timeouts + 1)
        else r.(fate := Settled(Conclude(r.plan.request, outcome, c.codec)))
  }

  function Answer(r: Tracked, t: nat): seq<Sent> {
    if r.fate.Settled? && r.fate.result.Answered? then [Sent(t, r.fate.result.envelope)] else []
  }

  function Deliver(s: State, t: nat, input: Input, c: Config): State {
    if t < |s.tracked| && InFlight(s.tracked[t]) then
      var r := TakeInput(s.tracked[t], input, c);
      s.(tracked := s.tracked[t := r], sent := s.sent + Answer(r, t))
    else s
  }

  function Step(s: State, e: Event, c: Config): State {
    match e
    case FrameIn(raw) => Arrive(s, raw, c)
    case AwaitEnds(t, outcome) => Deliver(s, t, Ends(outcome), c)
    case Cancel(t) => Deliver(s, t, Stop, c)
    case SetDefaults(defaults) => s.(defaults := if defaults.Some? then defaults.value else map[])
    case RegisterFunction(r) => s.(table := Registry.Register(s.table, r.name, r.handler, r.model).0)
  }

  function Run(start: State, events: seq<Event>, c: Config): State {
    if events == [] then start
    else Step(Run(start, events[..|events| - 1], c), events[|events| - 1], c)
  }

  /** A router that has seen no frame yet. */
  predicate Fresh(s: State) {
    s.tracked == [] && s.sent == []
  }

  // ---------- The run read off the events alone ----------

  function TableAt(start: State, events: seq<Event>): Table {
    if events == [] then start.table
    else
      var table := TableAt(start, events[..|events| - 1]);
      match events[|events| - 1]
      case RegisterFunction(r) => Registry.Register(table, r.name, r.handler, r.model).0
      case _ => table
  }

  function DefaultsAt(start: State, events: seq<Event>): Arguments {
    if events == [] then start.defaults
    else
      match events[|events| - 1]
      case SetDefaults(defaults) => if defaults.Some? then defaults.value else map[]
      case _ => DefaultsAt(start, events[..|events| - 1])
  }

  /** The client-side requests among the frames, in order of arrival. */
  function Requests(events: seq<Event>, c: Config): seq<Request> {
    if events == [] then []
    else
      var before := Requests(events[..|events| - 1], c);
      match events[|events| - 1]
      case FrameIn(raw) =>
        (match ParseFrame(raw, c.codec)
         case Call(request) => if request.clientSide then before + [request] else before
         case _ => before)
      case _ => before
  }

  /** The plan of each of these requests, made from the table and the defaults of its moment of arrival. */
  function Plans(start: State, events: seq<Event>, c: Config): seq<Plan> {
    if events == [] then []
    else
      var prefix := events[..|events| - 1];
      var before := Plans(start, prefix, c);
      match events[|events| - 1]
      case FrameIn(raw) =>
        var plan := PlanFrame(raw, TableAt(start, prefix), DefaultsAt(start, prefix), c.codec);
        if Concerns(plan) then before + [plan] else before
      case _ => before
  }

  /** What happened to one request: how its own awaits ended, and whether it was cancelled. */
  function InputsOf(start: State, events: seq<Event>, c: Config, ticket: nat): seq<Input> {
    if events == [] then []
    else
      var prefix := events[..|events| - 1];
      var before := InputsOf(start, prefix, c, ticket);
      match events[|events| - 1]
      case AwaitEnds(t, outcome) => if t == ticket < |Plans(start, prefix, c)| then before + [Ends(outcome)] else before
      case Cancel(t) => if t == ticket < |Plans(start, prefix, c)| then before + [Stop] else before
      case _ => before
  }

  /** The input that settles a request: the first that is no time-out, or the last attempt's. */
  predicate Decides(inputs: seq<Input>, i: nat, limit: nat) {
    i < |inputs| && (i + 1 == limit || !(inputs[i].Ends? && inputs[i].outcome.TimedOut?))
  }

  predicate FirstDeciding(inputs: seq<Input>, i: nat, limit: nat) {
    Decides(inputs, i, limit) && forall j :: 0 <= j < i ==> !Decides(inputs, j, limit)
  }

  /** A request alone: its fate from its own plan and its own inputs. */
  predicate Alone(plan: Plan, inputs: seq<Input>, c: Config, fate: Fate) {
    var limit := AttemptLimit(c.settings.maxRetries);
    match plan
    case Refuse(_, envelope) => fate == Settled(Answered(envelope, []))
    case Invoke(request, _, _) =>
      && (forall i :: 0 <= i < |inputs| && FirstDeciding(inputs, i, limit) ==>
            fate == if inputs[i].Stop? then Cancelled else Settled(Conclude(request, inputs[i].outcome, c.codec)))
      && ((forall i :: 0 <= i < |inputs| ==> !Decides(inputs, i, limit)) ==> fate == Waiting)
    case _ => false
  }

  // ---------- Isolation ----------

  /** The invariant of one request: it stands as it would alone, and counts its time-outs while it waits. */
  ghost predicate Tracks(r: Tracked, inputs: seq<Input>, c: Config) {
    var limit := AttemptLimit(c.settings.maxRetries);
    && Alone(r.plan, inputs, c, r.fate)
    && (r.plan.Invoke? && !r.fate.Waiting? ==> exists i :: 0 <= i < |inputs| && FirstDeciding(inputs, i, limit))
    && (InFlight(r) ==>
          r.timeouts == |inputs| < limit && forall i :: 0 <= i < |inputs| ==> !Decides(inputs, i, limit))
  }

  lemma DecidesStays(inputs: seq<Input>, input: Input, i: nat, limit: nat)
    requires i < |inputs|
    ensures Decides(inputs + [input], i, limit) <==> Decides(inputs, i, limit)
  {
  }

  lemma TakesInput(r: Tracked, inputs: seq<Input>, input: Input, c: Config)
    requires Tracks(r, inputs, c)
    ensures Tracks(TakeInput(r, input, c), inputs + [input], c)
  {
    hide Conclude, Decides, AttemptLimit;
    var limit := AttemptLimit(c.settings.maxRetries);
    var longer := inputs + [input];
    forall i | 0 <= i < |inputs| ensures Decides(longer, i, limit) <==> Decides(inputs, i, limit) {
      DecidesStays(inputs, input, i, limit);
    }
    if InFlight(r) {
      LastDecides(inputs, input, r.timeouts, limit);
      assert !TakeInput(r, input, c).fate.Waiting? <==> Decides(longer, |inputs|, limit);
      assert longer[|inputs|] == input;
      if Decides(longer, |inputs|, limit) {
        assert FirstDeciding(longer, |inputs|, limit);
      }
    } else if r.plan.Invoke? {
      var i :| 0 <= i < |inputs| && FirstDeciding(inputs, i, limit);
      assert FirstDeciding(longer, i, limit) && longer[i] == inputs[i];
    }
  }

  lemma LastDecides(inputs: seq<Input>, input: Input, timeouts: nat, limit: nat)
    requires timeouts == |inputs| < limit
    ensures Decides(inputs + [input], |inputs|, limit)
       <==> !(input.Ends? && input.outcome.TimedOut? && timeouts + 1 < limit)
  {
  }

  lemma ArrivesTracked(s: State, raw: Value, c: Config)
    ensures var plan := PlanFrame(raw, s.table, s.defaults, c.codec);
            Concerns(plan) ==>
              && |Arrive(s, raw, c).tracked| == |s.tracked| + 1
              && Arrive(s, raw, c).tracked[|s.tracked|].plan == plan
              && Tracks(Arrive(s, raw, c).tracked[|s.tracked|], [], c)
  {
    hide PlanFrame;
  }

  /**
    Every request fares as it would alone: nothing another request does, or that happens to the defaults later,
    reaches it.
   */
  lemma {:induction false} EachFaresAlone(start: State, events: seq<Event>, c: Config)
    requires Fresh(start)
    ensures var s := Run(start, events, c);
            && s.table == TableAt(start, events) && s.defaults == DefaultsAt(start, events)
            && |s.tracked| == |Plans(start, events, c)|
            && forall t :: 0 <= t < |s.tracked| ==>
                 && s.tracked[t].plan == Plans(start, events, c)[t]
                 && Tracks(s.tracked[t], InputsOf(start, events, c, t), c)
  {
    hide PlanFrame, TakeInput, Tracks;
    if events != [] {
      var prefix, e := events[..|events| - 1], events[|events| - 1];
      var s := Run(start, prefix, c);
      EachFaresAlone(start, prefix, c);
      match e {
        case FrameIn(raw) =>
          ArrivesTracked(s, raw, c);
          NoInputsYet(start, prefix, c, |s.tracked|);
        case AwaitEnds(t, outcome) => DeliversTracked(start, prefix, c, t, Ends(outcome));
        case Cancel(t) => DeliversTracked(start, prefix, c, t, Stop);
        case _ =>
      }
    }
  }

  lemma DeliversTracked(start: State, events: seq<Event>, c: Config, t: nat, input: Input)
    requires var s := Run(start, events, c);
             t < |s.tracked| ==> Tracks(s.tracked[t], InputsOf(start, events, c, t), c)
    ensures var s := Run(start, events, c);
            t < |s.tracked| ==>
              && Deliver(s, t, input, c).tracked == s.tracked[t := TakeInput(s.tracked[t], input, c)]
              && TakeInput(s.tracked[t], input, c).plan == s.tracked[t].plan
              && Tracks(TakeInput(s.tracked[t], input, c), InputsOf(start, events, c, t) + [input], c)
  {
    hide Tracks, Conclude;
    var s := Run(start, events, c);
    if t < |s.tracked| {
      TakesInput(s.tracked[t], InputsOf(start, events, c, t), input, c);
    }
  }

  lemma {:induction false} NoInputsYet(start: State, events: seq<Event>, c: Config, ticket: nat)
    requires ticket >= |Plans(start, events, c)|
    ensures InputsOf(start, events, c, ticket) == []
  {
    hide PlanFrame;
    if events != [] {
      NoInputsYet(start, events[..|events| - 1], c, ticket);
    }
  }

  /** The defaults are those of the last `set_default_arguments`, whatever else has happened since. */
  lemma {:induction false} DefaultsAreTheLastSet(start: State, events: seq<Event>, c: Config, i: nat)
    requires i < |events| && events[i].SetDefaults?
    requires forall j :: i < j < |events| ==> !events[j].SetDefaults?
    ensures Run(start, events, c).defaults == if events[i].defaults.Some? then events[i].defaults.value else map[]
  {
    hide PlanFrame, TakeInput;
    if i < |events| - 1 {
      DefaultsAreTheLastSet(start, events[..|events| - 1], c, i);
    }
  }

  lemma {:induction false} DefaultsStay(start: State, events: seq<Event>, c: Config)
    requires forall e <- events :: !e.SetDefaults?
    ensures Run(start, events, c).defaults == start.defaults
  {
    hide PlanFrame, TakeInput;
    if events != [] {
      DefaultsStay(start, events[..|events| - 1], c);
      assert events[|events| - 1] in events;
    }
  }

  function Registrations(events: seq<Event>): seq<Registration> {
    if events == [] then []
    else
      var before, last := Registrations(events[..|events| - 1]), events[|events| - 1];
      if last.RegisterFunction? then before + [last.registration] else before
  }

  /** The table is what the registrations among the events make of the one at the start. */
  lemma {:induction false} TableIsRegistered(start: State, events: seq<Event>, c: Config)
    ensures Run(start, events, c).table == RegisterAll(start.table, Registrations(events))
  {
    hide PlanFrame, TakeInput, RegisterAll, Registry.Register;
    if events == [] {
      NothingRegistered(start.table);
    } else {
      var last := events[|events| - 1];
      TableIsRegistered(start, events[..|events| - 1], c);
      if last.RegisterFunction? {
        RegisterAllSnoc(start.table, Registrations(events[..|events| - 1]), last.registration);
      }
    }
  }

  lemma NothingRegistered(table: Table)
    ensures RegisterAll(table, []) == table
  {
  }

  lemma {:induction false} RegisterAllSnoc(table: Table, calls: seq<Registration>, r: Registration)
    ensures RegisterAll(table, calls + [r])
         == Registry.Register(RegisterAll(table, calls), r.name, r.handler, r.model).0
    decreases |calls|
  {
    hide Registry.Register;
    if calls == [] {
      assert (calls + [r])[1..] == [];
    } else {
      assert (calls + [r])[1..] == calls[1..] + [r];
      var first := calls[0];
      RegisterAllSnoc(Registry.Register(table, first.name, first.handler, first.model).0, calls[1..], r);
    }
  }

  /** The fate of a ticket in any run is the fate of its plan under its own inputs. */
  lemma FateIsOwn(start: State, events: seq<Event>, c: Config, t: nat)
    requires Fresh(start) && t < |Plans(start, events, c)|
    ensures t < |Run(start, events, c).tracked|
    ensures Alone(Plans(start, events, c)[t], InputsOf(start, events, c, t), c, Run(start, events, c).tracked[t].fate)
  {
    EachFaresAlone(start, events, c);
  }

  /**
    What `HandleFrame` promises of n calls is what a run makes of their n awaits: the method answers a request as
    any interleaving does.
   */
  lemma HandleFrameIsAlone(plan: Plan, awaits: nat -> Await, n: nat, c: Config)
    requires plan.Invoke? && 1 <= n <= AttemptLimit(c.settings.maxRetries)
    requires forall i :: 0 <= i < n - 1 ==> awaits(i).outcome.TimedOut?
    requires n < AttemptLimit(c.settings.maxRetries) ==> !awaits(n - 1).outcome.TimedOut?
    ensures var inputs := seq(n, (i: int) requires 0 <= i < n => Ends(awaits(i).outcome));
            Alone(plan, inputs, c, Settled(Conclude(plan.request, awaits(n - 1).outcome, c.codec)))
  {
    hide Conclude, AttemptLimit;
    var inputs := seq(n, (i: int) requires 0 <= i < n => Ends(awaits(i).outcome));
    var limit := AttemptLimit(c.settings.maxRetries);
    assert Decides(inputs, n - 1, limit);
    assert forall i :: 0 <= i < |inputs| && Decides(inputs, i, limit) ==> i == n - 1;
  }

  /** Two runs that agree on a request's plan and on its inputs agree on its fate, however the other requests went. */
  lemma RequestsDoNotInterfere(start1: State, events1: seq<Event>, t1: nat, start2: State, events2: seq<Event>,
                               t2: nat, c: Config)
    requires Fresh(start1) && t1 < |Plans(start1, events1, c)|
    requires Fresh(start2) && t2 < |Plans(start2, events2, c)|
    requires Plans(start1, events1, c)[t1] == Plans(start2, events2, c)[t2]
    requires InputsOf(start1, events1, c, t1) == InputsOf(start2, events2, c, t2)
    ensures t1 < |Run(start1, events1, c).tracked| && t2 < |Run(start2, events2, c).tracked|
    ensures Run(start1, events1, c).tracked[t1].fate == Run(start2, events2, c).tracked[t2].fate
  {
    hide Run, Plans, InputsOf, AttemptLimit;
    FateIsOwn(start1, events1, c, t1);
    FateIsOwn(start2, events2, c, t2);
    SomeFirst(InputsOf(start1, events1, c, t1), AttemptLimit(c.settings.maxRetries));
  }

  lemma {:induction false} SomeFirst(inputs: seq<Input>, limit: nat)
    ensures || (forall i :: 0 <= i < |inputs| ==> !Decides(inputs, i, limit))
            || (exists i :: 0 <= i < |inputs| && FirstDeciding(inputs, i, limit))
  {
    if inputs != [] {
      var n := |inputs| - 1;
      var shorter := inputs[..n];
      SomeFirst(shorter, limit);
      assert inputs == shorter + [inputs[n]];
      forall i | 0 <= i < n ensures Decides(inputs, i, limit) <==> Decides(shorter, i, limit) {
        DecidesStays(shorter, inputs[n], i, limit);
      }
      if i :| 0 <= i < n && FirstDeciding(shorter, i, limit) {
        assert FirstDeciding(inputs, i, limit);
      } else if Decides(inputs, n, limit) {
        assert FirstDeciding(inputs, n, limit);
      }
    }
  }

  // ---------- Conservation ----------

  /** What the agent matches answers by. */
  type Label = (string, string)

  function RequestLabel(request: Request): Label {
    (request.id, request.name)
  }

  function RequestLabels(requests: seq<Request>): seq<Label> {
    seq(|requests|, i requires 0 <= i < |requests| => RequestLabel(requests[i]))
  }

  function SentLabels(sent: seq<Sent>): seq<Label> {
    seq(|sent|, i requires 0 <= i < |sent| => (sent[i].envelope.id, sent[i].envelope.name))
  }

  predicate IsAnswered(r: Tracked) {
    r.fate.Settled? && r.fate.result.Answered?
  }

  predicate AllConcern(tracked: seq<Tracked>) {
    forall t :: 0 <= t < |tracked| ==> Concerns(tracked[t].plan)
  }

  /** The requests nothing was sent for: still in flight, cancelled, or left by an exception. */
  function Unanswered(tracked: seq<Tracked>): seq<Label>
    requires AllConcern(tracked)
  {
    if tracked == [] then []
    else
      Unanswered(tracked[..|tracked| - 1]) + Missing(tracked[|tracked| - 1])
  }

  function Missing(r: Tracked): seq<Label>
    requires Concerns(r.plan)
  {
    if IsAnswered(r) then [] else [RequestLabel(r.plan.request)]
  }

  /** The messages sent for one ticket. */
  function SentFor(sent: seq<Sent>, t: nat): seq<Sent> {
    if sent == [] then []
    else SentFor(sent[..|sent| - 1], t) + if sent[|sent| - 1].ticket == t then [sent[|sent| - 1]] else []
  }

  lemma {:induction false} SentForConcat(a: seq<Sent>, b: seq<Sent>, t: nat)
    requires |b| <= 1
    ensures SentFor(a + b, t) == SentFor(a, t) + if b != [] && b[0].ticket == t then b else []
  {
    if b == [] {
      assert a + b == a;
    } else {
      assert (a + b)[..|a|] == a && b == [b[0]];
    }
  }

  lemma UnansweredSnoc(tracked: seq<Tracked>, r: Tracked)
    requires AllConcern(tracked) && Concerns(r.plan)
    ensures AllConcern(tracked + [r]) && Unanswered(tracked + [r]) == Unanswered(tracked) + Missing(r)
  {
    assert (tracked + [r])[..|tracked|] == tracked;
  }

  lemma {:induction false} UnansweredUpdate(tracked: seq<Tracked>, t: nat, r: Tracked)
    requires AllConcern(tracked) && t < |tracked| && r.plan == tracked[t].plan
    ensures AllConcern(tracked[t := r])
    ensures multiset(Unanswered(tracked)) + multiset(Missing(r))
         == multiset(Unanswered(tracked[t := r])) + multiset(Missing(tracked[t]))
  {
    hide Missing, Concerns;
    var n := |tracked| - 1;
    var before, last, updated := tracked[..n], tracked[n], tracked[t := r];
    assert AllConcern(updated) by {
      forall i | 0 <= i < |updated| ensures Concerns(updated[i].plan) {
        assert Concerns(tracked[i].plan);
      }
    }
    assert tracked == before + [last];
    UnansweredSnoc(before, last);
    assert multiset(Unanswered(tracked)) == multiset(Unanswered(before)) + multiset(Missing(last));
    if t == n {
      assert updated == before + [r];
      UnansweredSnoc(before, r);
      assert multiset(Unanswered(updated)) == multiset(Unanswered(before)) + multiset(Missing(r));
    } else {
      assert updated == before[t := r] + [last];
      UnansweredUpdate(before, t, r);
      UnansweredSnoc(before[t := r], last);
      assert multiset(Unanswered(updated)) == multiset(Unanswered(before[t := r])) + multiset(Missing(last));
      Exchange(multiset(Unanswered(before)), multiset(Missing(r)),
               multiset(Unanswered(before[t := r])), multiset(Missing(before[t])), multiset(Missing(last)));
    }
  }

  /** What is exchanged for what does not depend on the rest. */
  lemma Exchange(a: multiset<Label>, x: multiset<Label>, b: multiset<Label>, y: multiset<Label>, rest: multiset<Label>)
    requires a + x == b + y
    ensures a + rest + x == b + rest + y
    ensures rest + a + x == rest + b + y
  {
    assert a + rest + x == (a + x) + rest && b + rest + y == (b + y) + rest;
    assert rest + a + x == (a + x) + rest && rest + b + y == (b + y) + rest;
  }

  /** Every answer a plan or an outcome leads to carries the request's own id and name. */
  predicate OwnLabel(r: Tracked)
    requires Concerns(r.plan)
  {
    IsAnswered(r) ==> (r.fate.result.envelope.id, r.fate.result.envelope.name) == RequestLabel(r.plan.request)
  }

  lemma ConcludeKeepsLabel(r: Tracked, input: Input, c: Config)
    requires InFlight(r)
    ensures TakeInput(r, input, c).plan == r.plan && OwnLabel(TakeInput(r, input, c))
  {
  }

  lemma PlanLabel(raw: Value, table: Table, defaults: Arguments, codec: Codec)
    ensures var plan := PlanFrame(raw, table, defaults, codec);
            && (Concerns(plan) <==> ParseFrame(raw, codec).Call? && ParseFrame(raw, codec).request.clientSide)
            && (Concerns(plan) ==> plan.request == ParseFrame(raw, codec).request)
            && (plan.Refuse? ==> (plan.envelope.id, plan.envelope.name) == RequestLabel(plan.request))
  {
    hide ParseFrame, FormatFieldError, MergeArguments;
  }

  ghost predicate Conserves(s: State, requests: seq<Request>) {
    && AllConcern(s.tracked)
    && multiset(RequestLabels(requests)) == multiset(SentLabels(s.sent)) + multiset(Unanswered(s.tracked))
    && (forall t: nat :: |s.tracked| <= t ==> SentFor(s.sent, t) == [])
    && (forall t: nat :: t < |s.tracked| ==> SentFor(s.sent, t) == Answer(s.tracked[t], t) && OwnLabel(s.tracked[t]))
  }

  lemma SentLabelsConcat(a: seq<Sent>, b: seq<Sent>)
    ensures SentLabels(a + b) == SentLabels(a) + SentLabels(b)
  {
  }

  lemma DeliverConserves(s: State, t: nat, input: Input, c: Config, requests: seq<Request>)
    requires Conserves(s, requests)
    ensures Conserves(Deliver(s, t, input, c), requests)
  {
    hide TakeInput, Unanswered, SentLabels, RequestLabels, SentFor, RequestLabel;
    if t < |s.tracked| && InFlight(s.tracked[t]) {
      var r := TakeInput(s.tracked[t], input, c);
      ConcludeKeepsLabel(s.tracked[t], input, c);
      UnansweredUpdate(s.tracked, t, r);
      SentLabelsConcat(s.sent, Answer(r, t));
      AnswerLabels(r, t);
      assert multiset(SentLabels(s.sent + Answer(r, t))) == multiset(SentLabels(s.sent))
          + multiset(SentLabels(Answer(r, t)));
      assert multiset(Missing(s.tracked[t])) == multiset(Missing(r)) + multiset(SentLabels(Answer(r, t)));
      ExchangeOnce(multiset(SentLabels(s.sent)), multiset(SentLabels(Answer(r, t))), multiset(Missing(r)),
                   multiset(Unanswered(s.tracked)), multiset(Unanswered(s.tracked[t := r])));
      forall u: nat
        ensures SentFor(s.sent + Answer(r, t), u) == SentFor(s.sent, u) + if u == t then Answer(r, t) else []
      {
        SentForConcat(s.sent, Answer(r, t), u);
      }
    }
  }

  lemma ExchangeOnce(sent: multiset<Label>, answer: multiset<Label>, missing: multiset<Label>, before: multiset<Label>,
                     after: multiset<Label>)
    requires before + missing == after + (missing + answer)
    ensures sent + before == (sent + answer) + after
  {
    assert forall x :: (before + missing)[x] == before[x] + missing[x];
    assert forall x :: (after + (missing + answer))[x] == after[x] + missing[x] + answer[x];
  }

  lemma AnswerLabels(r: Tracked, t: nat)
    requires Concerns(r.plan) && OwnLabel(r)
    ensures SentLabels(Answer(r, t)) == if IsAnswered(r) then [RequestLabel(r.plan.request)] else []
  {
  }

  lemma ArriveConserves(s: State, raw: Value, c: Config, requests: seq<Request>)
    requires Conserves(s, requests)
    ensures var parsed := ParseFrame(raw, c.codec);
            Conserves(Arrive(s, raw, c),
                      if parsed.Call? && parsed.request.clientSide then requests + [parsed.request] else requests)
  {
    hide PlanFrame, ParseFrame, Conserves, OwnLabel;
    var plan := PlanFrame(raw, s.table, s.defaults, c.codec);
    PlanLabel(raw, s.table, s.defaults, c.codec);
    match plan {
      case Refuse(_, envelope) => AppendConserves(s, Tracked(plan, 0, Settled(Answered(envelope, []))), requests);
      case Invoke(_, _, _) => AppendConserves(s, Tracked(plan, 0, Waiting), requests);
      case _ =>
    }
    assert s.sent + [] == s.sent;
  }

  lemma AppendConserves(s: State, r: Tracked, requests: seq<Request>)
    requires Conserves(s, requests) && Concerns(r.plan)
    requires IsAnswered(r) ==> (r.fate.result.envelope.id, r.fate.result.envelope.name) == RequestLabel(r.plan.request)
    ensures Conserves(s.(tracked := s.tracked + [r], sent := s.sent + Answer(r, |s.tracked|)),
                      requests + [r.plan.request])
  {
    hide SentLabels, RequestLabels, SentFor, RequestLabel, IsAnswered, Unanswered;
    var n := |s.tracked|;
    var tracked, answer := s.tracked + [r], Answer(r, n);
    UnansweredSnoc(s.tracked, r);
    SentLabelsConcat(s.sent, answer);
    AnswerLabels(r, n);
    RequestLabelsSnoc(requests, r.plan.request);
    forall u: nat ensures SentFor(s.sent + answer, u) == SentFor(s.sent, u) + if u == n then answer else [] {
      SentForConcat(s.sent, answer, u);
    }
  }

  lemma RequestLabelsSnoc(requests: seq<Request>, request: Request)
    ensures RequestLabels(requests + [request]) == RequestLabels(requests) + [RequestLabel(request)]
  {
  }

  /**
    For every run: the labels of the client-side requests are the labels of the messages sent together with those of the
    requests nothing was sent for; each request has at most one message, under its own label; no message has no request.
   */
  lemma {:induction false} AnswersAreConserved(start: State, events: seq<Event>, c: Config)
    requires Fresh(start)
    ensures Conserves(Run(start, events, c), Requests(events, c))
  {
    hide Conserves, Deliver, Arrive, ParseFrame;
    if events == [] {
      NothingYet(start);
    } else {
      var prefix := events[..|events| - 1];
      var s, requests := Run(start, prefix, c), Requests(prefix, c);
      AnswersAreConserved(start, prefix, c);
      match events[|events| - 1] {
        case FrameIn(raw) => ArriveConserves(s, raw, c, requests);
        case AwaitEnds(t, outcome) => DeliverConserves(s, t, Ends(outcome), c, requests);
        case Cancel(t) => DeliverConserves(s, t, Stop, c, requests);
        case SetDefaults(defaults) =>
          SameTrace(s, s.(defaults := if defaults.Some? then defaults.value else map[]), requests);
        case RegisterFunction(r) =>
          SameTrace(s, s.(table := Registry.Register(s.table, r.name, r.handler, r.model).0), requests);
      }
    }
  }

  lemma NothingYet(s: State)
    requires Fresh(s)
    ensures Conserves(s, [])
  {
  }

  lemma SameTrace(s: State, s': State, requests: seq<Request>)
    requires Conserves(s, requests) && s'.tracked == s.tracked && s'.sent == s.sent
    ensures Conserves(s', requests)
  {
  }

  /** A decided request is answered exactly when it was not cancelled and its handler returned nothing unanswerable. */
  lemma AnsweredUnless(plan: Plan, inputs: seq<Input>, c: Config, fate: Fate, i: nat)
    requires plan.Invoke? && Alone(plan, inputs, c, fate)
    requires i < |inputs| && FirstDeciding(inputs, i, AttemptLimit(c.settings.maxRetries))
    ensures (fate.Settled? && fate.result.Answered?)
       <==> inputs[i].Ends? && (inputs[i].outcome.Returned? ==> Answerable(inputs[i].outcome.raw.content))
  {
    hide AttemptLimit, Respond, Answerable;
    if inputs[i].Ends? && inputs[i].outcome.Returned? {
      RespondsIff(plan.request.id, plan.request.name, inputs[i].outcome.raw.content, c.codec);
    }
  }

  /** The dictionary `{1: "done"}`. */
  const NUMBERED: PyValue := PyDict([PyEntry(IntKey(1), PyText("done"))])

  /** One function `f` of no arguments, and a call of it. */
  function OneFunction(): State {
    var model := ArgModel({}, (arguments: Arguments) => Valid(map[]));
    State(map["f" := Registered("f", 0, model)], map[], [], [])
  }

  const CALL: Request := Request("1", "f", map[], true, None)

  /** A run that loses an answer: the handler of an accepted call returns that dictionary. */
  lemma NumberedKeyLosesAnswer(c: Config)
    requires c.codec.asBool(Bool(true)) == Some(true)
    ensures var events := [FrameIn(FrameOf(CALL, [])), AwaitEnds(0, Returned(Bare(NUMBERED)))];
            var s := Run(OneFunction(), events, c);
            && Requests(events, c) == [CALL] && !Answerable(NUMBERED)
            && s.sent == [] && |s.tracked| == 1 && s.tracked[0].fate == Settled(Escaped)
  {
    var raw := FrameOf(CALL, []);
    var events := [FrameIn(raw), AwaitEnds(0, Returned(Bare(NUMBERED)))];
    CallIsPlanned(c);
    assert NUMBERED.entries[0] in NUMBERED.entries;
    RespondsIff("1", "f", NUMBERED, c.codec);
    hide ParseFrame, PlanFrame, FrameOf, Respond, Answerable;
    assert events[..1] == [FrameIn(raw)] && [FrameIn(raw)][..0] == [];
    assert Run(OneFunction(), [], c) == OneFunction() && Requests([], c) == [];
    assert Run(OneFunction(), [FrameIn(raw)], c) == Arrive(OneFunction(), raw, c);
    assert Requests([FrameIn(raw)], c) == [] + [CALL];
  }

  lemma CallIsPlanned(c: Config)
    requires c.codec.asBool(Bool(true)) == Some(true)
    ensures ParseFrame(FrameOf(CALL, []), c.codec) == Call(CALL)
    ensures PlanFrame(FrameOf(CALL, []), OneFunction().table, OneFunction().defaults, c.codec) == Invoke(CALL, 0, map[])
  {
    ParsesOwnFrames(CALL, [], c.codec);
    hide ParseFrame, FrameOf, MergeArguments;
  }
}
