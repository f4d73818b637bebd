/** The demo counter (demo/App.tsx:7-37): its state, its initial state and
    its `createActions`, written as a tagged union of actions with one
    exhaustive handler. */
module CounterDemo {
  import opened Wrappers
  import opened Actions
  import UseEpics

  /** `{num, delay, dogSrc}`; `null` is `None`. `dogSrc` holds what the
      `setDog` handler is given, which is the call's whole argument list. */
  datatype State = State(num: int, delay: Option<int>, dogSrc: Option<seq<string>>)

  const InitialState: State := State(0, None, None)

  /** The delay `start` stores, in milliseconds. */
  const StartDelay: int := 1000

  /** One action per key of `createActions`. */
  datatype CounterAction = Reset | Inc | Dec | Start | Stop | GetDog | SetDog(args: seq<string>)

  /** The handlers: `None` is a handler that returns `undefined` without
      touching its draft, so the facade does not commit. */
  function Handle(s: State, a: CounterAction): (r: Option<State>)
    ensures r.None? <==> a.GetDog?
    ensures a.Reset? ==> r == Some(InitialState)
    ensures r.Some? && !a.Reset? ==> r.value.num - s.num in {-1, 0, 1}
  {
    match a
    case Reset => Some(InitialState)
    case Inc => Some(s.(num := s.num + 1))
    case Dec => Some(s.(num := s.num - 1))
    case Start => Some(s.(delay := Some(StartDelay)))
    case Stop => Some(s.(delay := None))
    case GetDog => None
    case SetDog(args) => Some(s.(dogSrc := Some(args)))
  }

  const Kinds: set<string> := {"reset", "inc", "dec", "start", "stop", "getDog", "setDog"}

  /** The key of an action in `createActions`. */
  function KindOf(a: CounterAction): string
  {
    match a
    case Reset => "reset"
    case Inc => "inc"
    case Dec => "dec"
    case Start => "start"
    case Stop => "stop"
    case GetDog => "getDog"
    case SetDog(_) => "setDog"
  }

  /** The argument list a call of this action carries. */
  function ArgsOf(a: CounterAction): seq<string>
  {
    if a.SetDog? then a.args else []
  }

  /** Reading a facade call back as an action; only `setDog` looks at its
      arguments, the other handlers ignore them. */
  function Decode(kind: string, args: seq<string>): (r: Option<CounterAction>)
    ensures r.Some? <==> kind in Kinds
    ensures r.Some? ==> KindOf(r.value) == kind
  {
    if kind == "reset" then Some(Reset)
    else if kind == "inc" then Some(Inc)
    else if kind == "dec" then Some(Dec)
    else if kind == "start" then Some(Start)
    else if kind == "stop" then Some(Stop)
    else if kind == "getDog" then Some(GetDog)
    else if kind == "setDog" then Some(SetDog(args))
    else None
  }

  /** `createActions(state)` as the hook sees it: a record of handlers. */
  function CreateActions(s: State): (r: UseEpics.Handlers<State, string>)
    ensures r.Keys == Kinds
    ensures forall args :: r["getDog"](args).None?
  {
    map[
      "reset" := (args: seq<string>) => Handle(s, Reset),
      "inc" := (args: seq<string>) => Handle(s, Inc),
      "dec" := (args: seq<string>) => Handle(s, Dec),
      "start" := (args: seq<string>) => Handle(s, Start),
      "stop" := (args: seq<string>) => Handle(s, Stop),
      "getDog" := (args: seq<string>) => Handle(s, GetDog),
      "setDog" := (args: seq<string>) => Handle(s, SetDog(args))]
  }

  /** Decoding a call built from an action gives that action back. */
  lemma DecodeKindOf(a: CounterAction)
    ensures Decode(KindOf(a), ArgsOf(a)) == Some(a)
  {
  }

  /** The record has exactly the seven keys, whatever the state, and each
      handler is `Handle` on the decoded action. */
  lemma CreateActionsMatchesHandle(s: State, kind: string, args: seq<string>)
    ensures CreateActions(s).Keys == Kinds
    ensures kind in CreateActions(s) <==> Decode(kind, args).Some?
    ensures kind in CreateActions(s) ==> CreateActions(s)[kind](args) == Handle(s, Decode(kind, args).value)
  {
  }

  /** `inc` and `dec` move `num` by one and undo each other. */
  lemma IncDecInverse(s: State)
    ensures Handle(s, Inc).Some? && Handle(s, Inc).value.num == s.num + 1
    ensures Handle(s, Dec).Some? && Handle(s, Dec).value.num == s.num - 1
    ensures Handle(s, Inc) == Some(s.(num := s.num + 1)) && Handle(s, Dec) == Some(s.(num := s.num - 1))
    ensures Handle(Handle(s, Inc).value, Dec) == Some(s)
    ensures Handle(Handle(s, Dec).value, Inc) == Some(s)
  {
  }

  /** Whether a handler returns `undefined` depends only on the action,
      never on the state it is given. */
  lemma UndefinedIndependentOfState(s: State, t: State, a: CounterAction)
    ensures Handle(s, a).None? <==> Handle(t, a).None?
  {
  }

  /** `reset` ignores the current state. */
  lemma ResetForgets(s: State, t: State)
    ensures Handle(s, Reset) == Handle(t, Reset) == Some(InitialState)
  {
  }

  /** `start` sets the delay and `stop` clears it, from any state, and
      neither changes anything else; `start` then `stop` gives back the
      state with no delay. */
  lemma StartStop(s: State)
    ensures Handle(s, Start).Some? && Handle(s, Start).value.delay == Some(StartDelay)
    ensures Handle(s, Start).value.num == s.num && Handle(s, Start).value.dogSrc == s.dogSrc
    ensures Handle(s, Stop) == Some(s.(delay := None))
    ensures Handle(Handle(s, Start).value, Stop) == Some(s.(delay := None))
    ensures s.delay.None? ==> Handle(Handle(s, Start).value, Stop) == Some(s)
  {
  }

  /** `setDog` changes only `dogSrc`. */
  lemma SetDogOnly(s: State, args: seq<string>)
    ensures Handle(s, SetDog(args)).Some?
    ensures Handle(s, SetDog(args)).value.dogSrc == Some(args)
    ensures Handle(s, SetDog(args)).value.(dogSrc := s.dogSrc) == s
  {
  }

  /** The counter before any call: num is 0, no timer, no picture. */
  function NewCounter(epicCount: nat): (c: UseEpics.Container<State, string>)
    ensures c.state.num == 0 && c.state.delay.None? && c.state.dogSrc.None?
  {
    UseEpics.Mount(InitialState, epicCount)
  }

  /** One facade call of a demo action followed by the publish effect. */
  function CallAndFlush(c: UseEpics.Container<State, string>, a: CounterAction): (r: UseEpics.Container<State, string>)
    requires c.initialState == InitialState
    ensures r.initialState == InitialState && r.subjects.Some? == c.subjects.Some?
    ensures Handle(c.state, a).Some? ==> r.state == Handle(c.state, a).value
    ensures Handle(c.state, a).None? ==> r.state == c.state
    ensures c.subjects.Some? ==>
      r.pending.None? && r.subjects.value.actionLog == c.subjects.value.actionLog + [Action(KindOf(a), ArgsOf(a))]
  {
    CreateActionsMatchesHandle(InitialState, KindOf(a), ArgsOf(a));
    CreateActionsMatchesHandle(c.state, KindOf(a), ArgsOf(a));
    var d := UseEpics.Dispatch(CreateActions, c, KindOf(a), ArgsOf(a));
    UseEpics.Flush(d.value)
  }

  /** `getDog` returns `undefined`: the state stays as it was, yet the
      action is published and every open epic sees it. */
  lemma GetDogStillPublished(c: UseEpics.Container<State, string>)
    requires c.initialState == InitialState && c.subjects.Some?
    ensures CallAndFlush(c, GetDog).state == c.state
    ensures CallAndFlush(c, GetDog).subjects.value.actionLog == c.subjects.value.actionLog + [Action("getDog", [])]
    ensures forall i :: 0 <= i < |c.subs| && c.subs[i].open ==>
      CallAndFlush(c, GetDog).subs[i].received == c.subs[i].received + [UseEpics.Observation(Action("getDog", []), c.state)]
  {
    CreateActionsMatchesHandle(InitialState, "getDog", []);
    CreateActionsMatchesHandle(c.state, "getDog", []);
    UseEpics.DispatchThenFlush(CreateActions, c, "getDog", []);
  }

  /** The counter shows 0 before any call and 1 after one `inc`. */
  lemma InitiallyZeroThenInc(epicCount: nat)
    ensures UseEpics.Setup(NewCounter(epicCount)).state.num == 0
    ensures CallAndFlush(UseEpics.Setup(NewCounter(epicCount)), Inc).state.num == 1
  {
  }

  /** Three `inc` calls from a freshly set-up counter show 3, and the action
      subject carried the three calls in order. */
  lemma IncThreeTimes(epicCount: nat)
    ensures var c := UseEpics.Setup(NewCounter(epicCount));
      var r := CallAndFlush(CallAndFlush(CallAndFlush(c, Inc), Inc), Inc);
      r.state.num == 3 && r.subjects.value.actionLog == [Action("inc", []), Action("inc", []), Action("inc", [])]
  {
  }

  /** `dec` shows -1; `dec` then `reset` gives back the initial state. */
  lemma DecThenReset(epicCount: nat)
    ensures CallAndFlush(UseEpics.Setup(NewCounter(epicCount)), Dec).state.num == -1
    ensures CallAndFlush(CallAndFlush(UseEpics.Setup(NewCounter(epicCount)), Dec), Reset).state == InitialState
  {
  }
}
