/** The `useEpics` hook (src/index.ts:79-152) as explicit steps on one
    container record. React's render cycle is replaced by four steps the
    host performs: a facade call (`Dispatch`), the publish effect
    (`Flush`), the epic effect (`Setup`) and its cleanup (`Teardown`). */
module UseEpics {
  import opened Wrappers
  import opened Actions
  import Observable

  /** `createActions(state)`: one handler per action type, closing over the
      state. A handler gets the call's argument list as its one argument
      and returns the next state, or `None` for `undefined`. */
  type Handlers<S, !P> = map<string, seq<P> -> Option<S>>

  type ActionFactory<!S, !P> = S -> Handlers<S, P>

  /** Looking up a type that has no handler throws a `TypeError`. */
  datatype Error = UnknownActionType(kind: string)

  /** What an epic's subscription is called with when an action is
      published: the action, and the state view's `.value` at that moment
      (what `state$.value` reads inside the epic). */
  datatype Observation<S, P> = Observation(action: Action<P>, state: S)

  /** One epic's subscription, made at setup for epic number `epic`. */
  datatype Subscription<S, P> = Subscription(epic: nat, open: bool, received: seq<Observation<S, P>>)

  /** The subjects created by the setup effect: everything pushed into the
      state subject and the action subject, and the state view fed by the
      state subject. */
  datatype Subjects<S, P> = Subjects(stateLog: seq<S>, actionLog: seq<Action<P>>, view: Observable.StateObservable<S>)

  /** The hook's arguments (`initialState`, the number of epics) and its
      mutable parts: the reducer state, the pending `lastAction` slot, the
      subject refs (`None` while they are `null`) and every subscription
      ever made. */
  datatype Container<S, P> = Container(
    initialState: S,
    epicCount: nat,
    state: S,
    pending: Option<Action<P>>,
    subjects: Option<Subjects<S, P>>,
    subs: seq<Subscription<S, P>>)

  /** The reducer (src/index.ts:89-93): look up the handler for the
      action's type in `createActions(state)` and apply it to the payload
      list as one argument. */
  function Reduce<S, P>(createActions: ActionFactory<S, P>, state: S, action: Action<P>): (r: Result<Option<S>, Error>)
    ensures r.Err? <==> action.kind !in createActions(state)
    ensures r.Err? ==> r.error == UnknownActionType(action.kind)
    ensures r.Ok? ==> r.value == createActions(state)[action.kind](action.payload)
  {
    var handlers := createActions(state);
    if action.kind in handlers then Ok(handlers[action.kind](action.payload))
    else Err(UnknownActionType(action.kind))
  }

  /** The facade's entries: the keys of `createActions(initialState)`. */
  function ActionTypes<S, P>(createActions: ActionFactory<S, P>, initialState: S): (keys: set<string>)
    ensures forall kind :: kind in keys <==> kind in createActions(initialState)
  {
    createActions(initialState).Keys
  }

  /** The first render: the reducer holds `initialState`, no action is
      pending, the subject refs are `null` and no epic is subscribed. */
  function Mount<S, P>(initialState: S, epicCount: nat): (c: Container<S, P>)
    ensures c.state == initialState && c.initialState == initialState && c.epicCount == epicCount
    ensures c.pending.None? && c.subjects.None? && c.subs == []
  {
    Container(initialState, epicCount, initialState, None, None, [])
  }

  /** A facade call `actions[kind](...args)` (src/index.ts:127-135). It
      throws when the facade has no such entry or the handler lookup
      fails, and then changes nothing. Otherwise it commits the reducer's
      result only when that is not `undefined`, and always leaves the
      action in the pending slot, replacing whatever was there. */
  function Dispatch<S, P>(createActions: ActionFactory<S, P>, c: Container<S, P>, kind: string, args: seq<P>): (r: Result<Container<S, P>, Error>)
    ensures r.Err? <==> kind !in ActionTypes(createActions, c.initialState) || kind !in createActions(c.state)
    ensures r.Ok? ==> r.value.pending == Some(Action(kind, args))
    ensures r.Ok? && createActions(c.state)[kind](args).Some? ==> r.value.state == createActions(c.state)[kind](args).value
    ensures r.Ok? && createActions(c.state)[kind](args).None? ==> r.value.state == c.state
    ensures r.Ok? ==> r.value == c.(state := r.value.state, pending := r.value.pending)
  {
    if kind !in ActionTypes(createActions, c.initialState) then Err(UnknownActionType(kind))
    else
      var action := Action(kind, args);
      match Reduce(createActions, c.state, action)
      case Err(e) => Err(e)
      case Ok(next) =>
        var committed := if next.Some? then next.value else c.state;
        Ok(c.(state := committed, pending := Some(action)))
  }

  /** The flush guard (src/index.ts:144): an action is pending and both
      subject refs are set. */
  predicate CanFlush<S, P>(c: Container<S, P>)
  {
    c.pending.Some? && c.subjects.Some?
  }

  /** `actionRef$.current.next(a)`: every open subscription is called once
      with `obs`; closed ones hear nothing. */
  function Deliver<S, P>(subs: seq<Subscription<S, P>>, obs: Observation<S, P>): (r: seq<Subscription<S, P>>)
    ensures |r| == |subs|
    ensures forall i :: 0 <= i < |subs| ==> r[i].epic == subs[i].epic && r[i].open == subs[i].open
    ensures forall i :: 0 <= i < |subs| ==> r[i].received == subs[i].received + (if subs[i].open then [obs] else [])
  {
    seq(|subs|, i requires 0 <= i < |subs| =>
      if subs[i].open then subs[i].(received := subs[i].received + [obs]) else subs[i])
  }

  /** The publish effect (src/index.ts:143-149): push the reducer state
      into the state subject (which feeds the state view), then the
      pending action into the action subject, then clear the slot. Before
      setup, or with nothing pending, it does nothing. */
  function Flush<S(==), P>(c: Container<S, P>): (r: Container<S, P>)
    ensures !CanFlush(c) ==> r == c
    ensures CanFlush(c) ==> r.pending.None? && r.subjects.Some?
    ensures CanFlush(c) ==> r.subjects.value.stateLog == c.subjects.value.stateLog + [c.state]
    ensures CanFlush(c) ==> r.subjects.value.actionLog == c.subjects.value.actionLog + [c.pending.value]
    ensures CanFlush(c) ==> r.subjects.value.view.value == c.state
    ensures CanFlush(c) ==> |r.subs| == |c.subs|
    ensures CanFlush(c) ==> forall i :: 0 <= i < |c.subs| ==>
      r.subs[i] == c.subs[i].(received := c.subs[i].received + (if c.subs[i].open then [Observation(c.pending.value, c.state)] else []))
    ensures CanFlush(c) ==> r.state == c.state && r.initialState == c.initialState && r.epicCount == c.epicCount
  {
    if !CanFlush(c) then c
    else
      var subjects := c.subjects.value;
      var action := c.pending.value;
      var view := Observable.SourceNext(subjects.view, c.state);
      var published := Subjects(subjects.stateLog + [c.state], subjects.actionLog + [action], view);
      c.(subjects := Some(published), subs := Deliver(c.subs, Observation(action, view.value)), pending := None)
  }

  /** The epic effect (src/index.ts:97-114): fresh subjects, a state view
      seeded with the hook's `initialState`, and one open subscription per
      epic, in the order of the epic list. */
  function Setup<S, P>(c: Container<S, P>): (r: Container<S, P>)
    ensures r.subjects.Some? && r.subjects.value.stateLog == [] && r.subjects.value.actionLog == []
    ensures r.subjects.value.view == Observable.Create(c.initialState)
    ensures |r.subs| == |c.subs| + c.epicCount && r.subs[..|c.subs|] == c.subs
    ensures forall e :: 0 <= e < c.epicCount ==> r.subs[|c.subs| + e] == Subscription(e, true, [])
    ensures r == c.(subjects := r.subjects, subs := r.subs)
  {
    var added := seq(c.epicCount, e requires 0 <= e < c.epicCount => Subscription(e, true, []));
    c.(subjects := Some(Subjects([], [], Observable.Create(c.initialState))), subs := c.subs + added)
  }

  /** The effect's cleanup (src/index.ts:116): unsubscribe every
      subscription. The subject refs are left as they are. */
  function Teardown<S, P>(c: Container<S, P>): (r: Container<S, P>)
    ensures |r.subs| == |c.subs|
    ensures forall i :: 0 <= i < |c.subs| ==> r.subs[i] == c.subs[i].(open := false)
    ensures r == c.(subs := r.subs)
  {
    c.(subs := seq(|c.subs|, i requires 0 <= i < |c.subs| => c.subs[i].(open := false)))
  }

  /** One thing the host can do to the container. */
  datatype Step<P> = Call(kind: string, args: seq<P>) | FlushStep | SetupStep | TeardownStep

  /** A call that throws leaves the container as it was. A call never
      touches the subjects or the subscriptions: only a flush publishes. No
      step changes the hook's arguments. */
  function Perform<S(==), P>(createActions: ActionFactory<S, P>, c: Container<S, P>, step: Step<P>): (r: Container<S, P>)
    ensures r.initialState == c.initialState && r.epicCount == c.epicCount
    ensures step.Call? && Dispatch(createActions, c, step.kind, step.args).Err? ==> r == c
    ensures step.Call? ==> r.subjects == c.subjects && r.subs == c.subs
  {
    match step
    case Call(kind, args) =>
      (match Dispatch(createActions, c, kind, args)
       case Ok(c') => c'
       case Err(_) => c)
    case FlushStep => Flush(c)
    case SetupStep => Setup(c)
    case TeardownStep => Teardown(c)
  }

  /** The host performs `steps` in order. The hook's arguments never
      change, and calls alone never publish anything. */
  function Run<S(==), P>(createActions: ActionFactory<S, P>, c: Container<S, P>, steps: seq<Step<P>>): (r: Container<S, P>)
    ensures r.initialState == c.initialState && r.epicCount == c.epicCount
    ensures (forall k :: 0 <= k < |steps| ==> steps[k].Call?) ==> r.subjects == c.subjects && r.subs == c.subs
    decreases |steps|
  {
    if steps == [] then c else Run(createActions, Perform(createActions, c, steps[0]), steps[1..])
  }

  /** The host's lifecycle discipline: the effect runs only when it is not
      already mounted, and its cleanup only when it is. */
  predicate HostOrder<P>(steps: seq<Step<P>>, mounted: bool)
    decreases |steps|
  {
    steps == [] ||
    match steps[0]
    case SetupStep => !mounted && HostOrder(steps[1..], true)
    case TeardownStep => mounted && HostOrder(steps[1..], false)
    case _ => HostOrder(steps[1..], mounted)
  }

  function MountedAfter<P>(steps: seq<Step<P>>, mounted: bool): bool
    decreases |steps|
  {
    if steps == [] then mounted
    else match steps[0]
      case SetupStep => MountedAfter(steps[1..], true)
      case TeardownStep => MountedAfter(steps[1..], false)
      case _ => MountedAfter(steps[1..], mounted)
  }

  /** The subscriptions as the lifecycle leaves them: when mounted, the
      last `epicCount` are open, one for each epic in order, and all older
      ones are closed; when not mounted, none is open. */
  predicate SubsShape<S, P>(c: Container<S, P>, mounted: bool)
  {
    var m := |c.subs|;
    if mounted then
      && m >= c.epicCount
      && (forall i :: 0 <= i < m ==> (c.subs[i].open <==> i >= m - c.epicCount))
      && (forall i :: m - c.epicCount <= i < m ==> c.subs[i].epic == i - (m - c.epicCount))
    else
      forall i :: 0 <= i < m ==> !c.subs[i].open
  }

  /** No epic has two open subscriptions at once. */
  predicate OnePerEpic<S, P>(c: Container<S, P>)
  {
    forall i, j :: 0 <= i < j < |c.subs| && c.subs[i].open && c.subs[j].open ==> c.subs[i].epic != c.subs[j].epic
  }

  lemma ShapeGivesOnePerEpic<S, P>(c: Container<S, P>, mounted: bool)
    requires SubsShape(c, mounted)
    ensures OnePerEpic(c)
  {
  }

  /** Each step the host may take keeps the subscription shape. */
  lemma PerformKeepsShape<S, P>(createActions: ActionFactory<S, P>, c: Container<S, P>, step: Step<P>, mounted: bool)
    requires SubsShape(c, mounted)
    requires step.SetupStep? ==> !mounted
    requires step.TeardownStep? ==> mounted
    ensures SubsShape(Perform(createActions, c, step), if step.SetupStep? then true else if step.TeardownStep? then false else mounted)
  {
    var r := Perform(createActions, c, step);
    match step
    case SetupStep =>
      forall i | 0 <= i < |r.subs|
        ensures r.subs[i].open <==> i >= |r.subs| - c.epicCount
      {
        if i < |c.subs| {
          assert r.subs[i] == r.subs[..|c.subs|][i];
        } else {
          assert r.subs[i] == Subscription(i - |c.subs|, true, []);
        }
      }
    case _ =>
  }

  /** The first render satisfies both run invariants: nothing is
      subscribed and nothing is on the bus. */
  lemma MountSatisfiesInvariants<S, P>(createActions: ActionFactory<S, P>, initialState: S, epicCount: nat)
    ensures SubsShape(Mount<S, P>(initialState, epicCount), false)
    ensures BusFromFacade(createActions, Mount<S, P>(initialState, epicCount))
  {
  }

  /** Epic lifecycle: over any host-ordered run, every epic is
      subscribed exactly once while mounted, never twice at once, and
      nothing stays subscribed after teardown. */
  lemma {:induction false} LifecycleKeepsShape<S, P>(createActions: ActionFactory<S, P>, c: Container<S, P>, steps: seq<Step<P>>, mounted: bool)
    requires SubsShape(c, mounted)
    requires HostOrder(steps, mounted)
    ensures SubsShape(Run(createActions, c, steps), MountedAfter(steps, mounted))
    ensures OnePerEpic(Run(createActions, c, steps))
    decreases |steps|
  {
    if steps == [] {
      ShapeGivesOnePerEpic(c, mounted);
    } else {
      var next := if steps[0].SetupStep? then true else if steps[0].TeardownStep? then false else mounted;
      PerformKeepsShape(createActions, c, steps[0], mounted);
      LifecycleKeepsShape(createActions, Perform(createActions, c, steps[0]), steps[1..], next);
    }
  }

  /** Setup then teardown: setup made exactly one subscription per epic,
      and teardown leaves every subscription, old and new, closed. */
  lemma SetupThenTeardown<S, P>(c: Container<S, P>)
    ensures |Teardown(Setup(c)).subs| == |c.subs| + c.epicCount
    ensures forall i :: |c.subs| <= i < |Setup(c).subs| ==> Setup(c).subs[i].epic == i - |c.subs| && Setup(c).subs[i].open
    ensures forall i :: 0 <= i < |Teardown(Setup(c)).subs| ==> !Teardown(Setup(c)).subs[i].open
  {
  }

  /** After teardown nothing reaches any epic: without a new setup, no
      sequence of calls and flushes changes any subscription. */
  lemma {:induction false} NoDeliveryAfterTeardown<S, P>(createActions: ActionFactory<S, P>, c: Container<S, P>, steps: seq<Step<P>>)
    requires forall i :: 0 <= i < |c.subs| ==> !c.subs[i].open
    requires forall k :: 0 <= k < |steps| ==> !steps[k].SetupStep?
    ensures Run(createActions, c, steps).subs == c.subs
    decreases |steps|
  {
    if steps != [] {
      var c' := Perform(createActions, c, steps[0]);
      assert c'.subs == c.subs;
      NoDeliveryAfterTeardown(createActions, c', steps[1..]);
    }
  }

  /** Commit, then publish once: a call followed by the publish effect
      appends the call's action to the action subject exactly once, the
      committed state to the state subject, and every open epic sees the
      action while the state view already holds that state. */
  lemma DispatchThenFlush<S, P>(createActions: ActionFactory<S, P>, c: Container<S, P>, kind: string, args: seq<P>)
    requires c.subjects.Some?
    requires kind in ActionTypes(createActions, c.initialState) && kind in createActions(c.state)
    ensures Dispatch(createActions, c, kind, args).Ok?
    ensures var d := Dispatch(createActions, c, kind, args).value;
      var r := Flush(d);
      && r.pending.None?
      && r.subjects.value.actionLog == c.subjects.value.actionLog + [Action(kind, args)]
      && r.subjects.value.stateLog == c.subjects.value.stateLog + [d.state]
      && r.subjects.value.view.value == d.state
      && forall i :: 0 <= i < |c.subs| && c.subs[i].open ==>
           r.subs[i].received == c.subs[i].received + [Observation(Action(kind, args), d.state)]
  {
  }

  /** The single pending slot: two calls before one flush publish only the
      second action; the first is never seen by any epic. */
  lemma SecondCallSupersedes<S, P>(createActions: ActionFactory<S, P>, c: Container<S, P>, k1: string, a1: seq<P>, k2: string, a2: seq<P>)
    requires c.subjects.Some?
    requires Dispatch(createActions, c, k1, a1).Ok?
    requires Dispatch(createActions, Dispatch(createActions, c, k1, a1).value, k2, a2).Ok?
    ensures var r := Flush(Dispatch(createActions, Dispatch(createActions, c, k1, a1).value, k2, a2).value);
      r.subjects.value.actionLog == c.subjects.value.actionLog + [Action(k2, a2)]
  {
  }

  /** A second flush right after a flush does nothing. */
  lemma FlushIdempotent<S, P>(c: Container<S, P>)
    ensures Flush(Flush(c)) == Flush(c)
  {
  }

  /** A facade call made by an epic while it is being called. */
  datatype FacadeCall<P> = FacadeCall(kind: string, args: seq<P>)

  function CallSteps<P>(calls: seq<FacadeCall<P>>): (steps: seq<Step<P>>)
    ensures |steps| == |calls|
    ensures forall k :: 0 <= k < |calls| ==> steps[k] == Call(calls[k].kind, calls[k].args)
  {
    seq(|calls|, k requires 0 <= k < |calls| => Call(calls[k].kind, calls[k].args))
  }

  /** The publish effect when epics call the facade synchronously while
      the pushes at src/index.ts:145-146 are being delivered. Those calls
      commit their state and overwrite the slot, and line 147 then sets the
      slot to `null`. So their actions are published once (the pending
      one) and are then gone: they never reach the action subject. */
  function FlushReentrant<S(==), P>(createActions: ActionFactory<S, P>, c: Container<S, P>, calls: seq<FacadeCall<P>>): (r: Container<S, P>)
    ensures !CanFlush(c) ==> r == c
    ensures CanFlush(c) ==> r.pending.None? && r.subjects.Some?
    ensures CanFlush(c) ==> r.subjects.value.actionLog == c.subjects.value.actionLog + [c.pending.value]
    ensures CanFlush(c) ==> r.subjects == Flush(c).subjects && r.subs == Flush(c).subs
    ensures CanFlush(c) ==> r.state == Run(createActions, Flush(c), CallSteps(calls)).state
  {
    if !CanFlush(c) then c
    else Run(createActions, Flush(c), CallSteps(calls)).(pending := None)
  }

  /** A call an epic makes during delivery commits its state, but its
      action is lost: it is not on the action subject, and a later publish
      effect finds the slot empty and publishes nothing. */
  lemma ReentrantCallLost<S, P>(createActions: ActionFactory<S, P>, c: Container<S, P>, kind: string, args: seq<P>)
    requires CanFlush(c)
    requires Dispatch(createActions, Flush(c), kind, args).Ok?
    ensures var r := FlushReentrant(createActions, c, [FacadeCall(kind, args)]);
      && r.state == Dispatch(createActions, Flush(c), kind, args).value.state
      && r.subjects.value.actionLog == c.subjects.value.actionLog + [c.pending.value]
      && Flush(r) == r
  {
    var steps := CallSteps([FacadeCall(kind, args)]);
    assert steps == [Call(kind, args)];
    assert steps[1..] == [];
    var d := Perform(createActions, Flush(c), steps[0]);
    assert d == Dispatch(createActions, Flush(c), kind, args).value;
    assert Run(createActions, Flush(c), steps) == Run(createActions, d, []);
  }

  /** Everything on the action bus, pending or delivered, was built by a
      facade entry: its type is a key of `createActions(initialState)`. */
  predicate BusFromFacade<S, P>(createActions: ActionFactory<S, P>, c: Container<S, P>)
  {
    var keys := ActionTypes(createActions, c.initialState);
    && (c.pending.Some? ==> c.pending.value.kind in keys)
    && (c.subjects.Some? ==> forall k :: 0 <= k < |c.subjects.value.actionLog| ==> c.subjects.value.actionLog[k].kind in keys)
    && (forall i, k :: 0 <= i < |c.subs| && 0 <= k < |c.subs[i].received| ==> c.subs[i].received[k].action.kind in keys)
  }

  lemma {:induction false} RunKeepsBusFromFacade<S, P>(createActions: ActionFactory<S, P>, c: Container<S, P>, steps: seq<Step<P>>)
    requires BusFromFacade(createActions, c)
    ensures BusFromFacade(createActions, Run(createActions, c, steps))
    decreases |steps|
  {
    if steps != [] {
      var c' := Perform(createActions, c, steps[0]);
      if steps[0].SetupStep? {
        forall i, k | 0 <= i < |c'.subs| && 0 <= k < |c'.subs[i].received|
          ensures c'.subs[i].received[k].action.kind in ActionTypes(createActions, c'.initialState)
        {
          assert c'.subs[i] == c'.subs[..|c.subs|][i];
        }
      }
      assert BusFromFacade(createActions, c');
      RunKeepsBusFromFacade(createActions, c', steps[1..]);
    }
  }
}
