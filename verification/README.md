# use-epics, modelled in Dafny

`use-epics` is a React hook that pairs a reducer with "epics": RxJS
pipelines that watch a stream of dispatched actions and the current state,
perform side effects and may call the action facade again. This project
models the sequential logic under the hook:

- `OfType` (`of_type.dfy`): the `ofType(...keys)` operator as a filter over a
  finite stream. A falsy stream item is `None`; an action is kept iff its
  type is one of the keys; the single-key fast path and the general scan
  are both modelled.
- `Observable` (`state_observable.dfy`): `StateObservable`, a cached `value`
  plus a notifier. Each subscriber's log records, for every call of its
  callback, the value passed and the `.value` it would read during the
  call, so "the cache is updated before anyone is notified" is a
  checkable fact.
- `UseEpics` (`use_epics.dfy`): the hook as a container record with explicit
  steps: `Dispatch` (a facade call), `Flush` (the publish effect), `Setup`
  (the effect that builds the subjects and subscribes the epics) and
  `Teardown` (its cleanup), plus `Run` over a sequence of such steps. The
  state and action subjects are append-only logs; each epic subscription
  logs every action it is called with, paired with the state view's value
  at that moment.
- `CounterDemo` (`counter_demo.dfy`): the demo's counter state and its
  `createActions`, written as a tagged union with one exhaustive handler,
  and connected to the container for scenario lemmas.

`Wrappers` and `Actions` (`wrappers.dfy`) hold `Option`, `Result` and the
`{type, payload}` action record. `type` is a Dafny keyword, so the
discriminator field is called `kind`.

Where the code departs from what the hook is meant to guarantee, this model
follows the code:

- No dispatched action should ever be lost, but the code keeps a
  single `lastAction` slot (src/index.ts:133), so two facade calls before
  one publish effect publish only the second. `UseEpics.SecondCallSupersedes`
  states this.
- Re-entrant calls lose their action. A facade call made by an epic
  while the pushes at src/index.ts:145-146 are being delivered commits its
  state and fills the slot, but line 147 then empties the slot, so its
  action never reaches any epic. `UseEpics.FlushReentrant` models this
  and `UseEpics.ReentrantCallLost` proves it.
- Teardown is not continue-on-error. The cleanup at src/index.ts:116
  unsubscribes with `forEach`, so an epic whose own teardown throws stops
  the loop, and the epics after it stay subscribed. `UseEpics.Teardown`
  models only the case where every unsubscribe returns normally (see
  "## Left out").
- The cleanup at src/index.ts:116 only unsubscribes; it does not clear the
  subject refs, and `UseEpics.Teardown` does the same. In the source the
  cleanup runs either on unmount, after which React ignores the
  component's updates and runs no effect again, or just before the setup
  effect re-runs, which installs new subjects before the publish effect
  runs. So no call or publish lands after a teardown there. The model does
  not record unmounting: `Run` allows calls and flushes after `Teardown`.
  For those runs, `UseEpics.NoDeliveryAfterTeardown` proves that no epic
  hears anything.
- The facade passes the call's whole argument list as the handler's one
  argument (src/index.ts:91, 135). So the demo's `setDog(url)` stores the
  list `[url]` in `dogSrc`, not the string. The model's `dogSrc` is that
  list.
- `Setup` seeds the state view with the hook's `initialState`
  (src/index.ts:98, 104), not with the current reducer state.

## Model

| member | source | states |
|---|---|---|
| OfType.ScanKeys | src/index.ts:172-177 | the `for` loop reports a match iff the type occurs among the keys from position `i` on |
| OfType.Keep | src/index.ts:164-179 | an item passes iff it is not falsy and its type is one of the keys, single-key fast path included |
| OfType.FastPathAgrees | src/index.ts:169-177 | with exactly one key, comparing against `keys[0]` gives the same answer as the general scan |
| OfType.Selected | src/index.ts:160-180 | the filtered stream is no longer than the source, and every action in it has one of the keys as type and occurs in the source |
| OfType.Apply | src/index.ts:160-180 | running the operator over a finite stream item by item yields the reference filter of the whole stream |
| OfType.SelectedAppend | test/operators.test.tsx:23-42 | filtering a concatenation is concatenating the filters, so passed actions keep their relative order |
| OfType.SelectedMembership | src/index.ts:164-179 | an action is in the output iff it occurs in the source and its type is a key (both directions) |
| OfType.NoKeysNothingPasses | src/index.ts:167-178 | with zero keys nothing passes |
| OfType.SelectedIdempotent | src/index.ts:160-180 | applying the same `ofType` to its own output changes nothing |
| OfType.SingleKeyScenario | src/index.ts:164-170 | `ofType('A')` keeps the two 'A' actions in order and drops the 'B' action and a falsy item |
| OfType.FilterByTypeScenario | test/operators.test.tsx:14-43 | on the stream M, M, L, `ofType(M)` yields the two M actions in order and `ofType(L)` the L action |
| OfType.TwoKeyScenario | test/operators.test.tsx:45-69 | `ofType(M, MI)` keeps the M and MI actions in order and drops the L action |
| Observable.Create | src/index.ts:26-27 | a new observable caches `initialState` and has no subscribers |
| Observable.Notify | src/index.ts:31 | `__notifier.next(v)` calls every subscriber exactly once with `v`, appended after what it had already received |
| Observable.Feed | src/index.ts:28-33 | a run of source values never adds or drops subscribers and leaves the cache at the last value emitted (or unchanged when there is none) |
| Observable.Subscribe | src/index.ts:17-24 | a new subscriber is called at once with the current value; older subscribers and the cache are untouched |
| Observable.SourceNext | src/index.ts:28-33 | a value identical to the cache changes nothing; a different one becomes the cache and every subscriber is called once with it while `.value` already equals it |
| Observable.CreateConsistent | src/index.ts:26-27 | a new observable caches `initialState` and trivially has every subscriber in sync |
| Observable.SubscribeConsistent | src/index.ts:18-24 | subscribing keeps every subscriber's last received value equal to the cache, with no adjacent repeats |
| Observable.SourceNextConsistent | src/index.ts:28-33 | a source value keeps every subscriber in sync: each call sees the cache already updated, and no value is passed twice in a row |
| Observable.FeedConsistent | src/index.ts:28-33 | any run of source values keeps every subscriber in sync |
| Observable.FeedDelivers | src/index.ts:28-33 | after the source emits a run of values, each subscriber has additionally received exactly that run with adjacent repeats removed |
| Observable.SubscribeThenFeed | src/index.ts:18-33 | a subscriber joining now receives the current value first, then the deduplicated later values |
| Observable.MirrorScenario | test/StateObservable.test.ts:10-24 | subscribing to "first" then emitting "second" and "third" delivers exactly those three values |
| Observable.RepeatScenario | test/StateObservable.test.ts:35-60 | re-emitting the cached value calls nobody; a new value is delivered once and cached |
| UseEpics.Reduce | src/index.ts:89-93 | the reducer fails with an unknown-type error iff the state's handler record lacks the action's type; otherwise its result is that handler applied to the whole payload list as one argument |
| UseEpics.ActionTypes | src/index.ts:119-121 | the facade's entries are exactly the keys of the handler record built from `initialState` |
| UseEpics.Mount | src/index.ts:84-95 | the first render holds `initialState`, nothing pending, no subjects and no subscriptions |
| UseEpics.Dispatch | src/index.ts:127-135 | a call fails iff its type has no facade entry or no handler; otherwise it always leaves its action pending, commits the handler's result only when it is not `undefined`, and changes nothing else |
| UseEpics.Deliver | src/index.ts:146 | publishing an action calls every open subscription once and no closed one |
| UseEpics.Flush | src/index.ts:143-149 | with an action pending and subjects set, the state goes to the state subject and the view first, then the action reaches every open epic paired with that committed state, then the slot is cleared; otherwise nothing changes |
| UseEpics.Setup | src/index.ts:97-114 | setup makes fresh subjects, a view caching `initialState`, and one open subscription per epic in list order |
| UseEpics.Teardown | src/index.ts:116 | teardown closes every subscription and changes nothing else |
| UseEpics.Perform | src/index.ts:123-149 | a call that throws changes nothing; a call never touches the subjects or subscriptions (only a flush publishes); no step changes the hook's arguments |
| UseEpics.Run | src/index.ts:79-152 | a run of steps never changes the hook's arguments, and a run of calls alone publishes nothing and reaches no epic |
| UseEpics.MountSatisfiesInvariants | src/index.ts:84-95 | the first render satisfies both run invariants: nothing is subscribed and nothing is on the bus |
| UseEpics.PerformKeepsShape | src/index.ts:97-117 | each host step keeps the subscription shape: mounted means exactly the last setup's subscriptions are open |
| UseEpics.LifecycleKeepsShape | src/index.ts:97-117 | over any host-ordered run of steps, no epic is ever subscribed twice at once and nothing is open after teardown |
| UseEpics.SetupThenTeardown | src/index.ts:106-116 | setup opens exactly one subscription per epic and the cleanup closes all of them |
| UseEpics.NoDeliveryAfterTeardown | src/index.ts:116 | after teardown, no sequence of calls and publishes reaches any epic subscription |
| UseEpics.DispatchThenFlush | src/index.ts:127-149 | a successful call then a publish appends its action exactly once, after its committed state, and every open epic sees it while the view holds that state |
| UseEpics.SecondCallSupersedes | src/index.ts:133 | two calls before one publish put only the second action on the action subject |
| UseEpics.FlushReentrant | src/index.ts:143-149 | calls made by epics during delivery commit their state, but only the pending action is published and the slot ends empty |
| UseEpics.ReentrantCallLost | src/index.ts:145-147 | a call made during delivery changes the state, yet its action is not on the action subject and a later publish publishes nothing |
| UseEpics.FlushIdempotent | src/index.ts:143-149 | a publish right after a publish does nothing |
| UseEpics.RunKeepsBusFromFacade | src/index.ts:119-135 | over any run of steps, every action pending, published or delivered has a type that is a key of `createActions(initialState)` |
| CounterDemo.Handle | demo/App.tsx:19-37 | only `getDog` returns `undefined`; `reset` returns the initial state; every other action moves `num` by at most one |
| CounterDemo.CreateActions | demo/App.tsx:19-37 | the handler record has exactly the seven keys, and its `getDog` handler returns `undefined` for every argument list |
| CounterDemo.UndefinedIndependentOfState | demo/App.tsx:19-37 | whether a handler returns `undefined` depends only on the action, never on the state |
| CounterDemo.Decode | demo/App.tsx:19-37 | a call decodes to an action iff its type is one of the seven keys, and the action has that type |
| CounterDemo.DecodeKindOf | demo/App.tsx:19-37 | decoding the call built from an action gives that action back |
| CounterDemo.CreateActionsMatchesHandle | demo/App.tsx:19-37 | `createActions(state)` has exactly the seven keys for every state, and each handler behaves as the tagged-union handler on the decoded action |
| CounterDemo.IncDecInverse | demo/App.tsx:21-26 | `inc` adds one to `num`, `dec` subtracts one, both leave `delay` and `dogSrc` unchanged, and each undoes the other |
| CounterDemo.ResetForgets | demo/App.tsx:20 | `reset` gives the initial state whatever the current state |
| CounterDemo.StartStop | demo/App.tsx:27-32 | `start` sets the delay to 1000 and `stop` sets it to null, from any state, and neither changes anything else; `start` then `stop` gives back the state with no delay |
| CounterDemo.SetDogOnly | demo/App.tsx:34-36 | `setDog` changes only `dogSrc`, which becomes the call's argument list |
| CounterDemo.NewCounter | demo/App.tsx:7-11 | the counter starts at 0 with no delay and no picture |
| CounterDemo.CallAndFlush | src/index.ts:127-149 | one demo call then a publish commits the handler's result (or keeps the state for `undefined`) and publishes the call's action once |
| CounterDemo.GetDogStillPublished | demo/App.tsx:33 | `getDog` leaves the state as it was, yet its action is published and every open epic sees it |
| CounterDemo.InitiallyZeroThenInc | test/use-epics.test.tsx:31-38 | the counter shows 0 before any call and 1 after one `inc` |
| CounterDemo.IncThreeTimes | demo/App.tsx:21-23 | three `inc` calls from the initial state show 3 and publish three `inc` actions in order |
| CounterDemo.DecThenReset | test/use-epics.test.tsx:40-49 | `dec` shows -1, and `dec` then `reset` gives back the initial state |

## Left out

- React's hook machinery (`useRef`, `useMemo` dependencies, `useReducer` bail-out, render batching and timing) is replaced by the explicit `Dispatch`, `Flush`, `Setup` and `Teardown` steps. The host decides when a publish happens. The model does not say when React would run the effect.
- Re-entrant calls outside a publish: in `Run`, an epic's call is another `Dispatch` step taken in an order the host chooses. A call made during delivery loses its action in the source, and the atomic `Flush` step cannot express that. `UseEpics.FlushReentrant` is the separate step that does.
- UseEpics.Teardown: an epic teardown that throws is not modelled. RxJS re-throws it from `unsubscribe`, and `forEach` (src/index.ts:116) then leaves the later epics subscribed. `UseEpics.LifecycleKeepsShape` ("nothing is open after teardown") and `UseEpics.NoDeliveryAfterTeardown` hold only when every epic's teardown returns normally.
- The facade object's identity across renders (`useMemo` over the action types, src/index.ts:119-141) is not modelled. Only its set of keys is (`UseEpics.ActionTypes`).
- The facade's `state` closure: `dispatchWithEpic` closes over `state` from the render in which the `useMemo` at src/index.ts:123-141 last ran. Its dependency list is the `actionTypes` array, which does not change while the key set stays the same, so the closure keeps the first render's state (`initialState`). The handler lookup and the `nextState !== undefined` decision (src/index.ts:129-132) both use that first-render state, while `useReducer` applies the action to the latest state. The model uses the current state for both. This is why `UseEpics.Dispatch`'s error clause tests `kind !in createActions(c.state)`, where the source looks the kind up in `createActions(initialState)`. For the demo the two agree: every state has the same seven keys (`CounterDemo.CreateActionsMatchesHandle`), and only `getDog` returns `undefined`, whatever the state (`CounterDemo.UndefinedIndependentOfState`).
- immer's `produce`: handlers are pure functions from state and argument list to a next state or `undefined`. The real `produce` finalises a mutated draft, and returns the base state where this model has `undefined`. That behaviour is in a library that is not part of this model.
- Handler exceptions are not modelled (handlers are total). The only error modelled is the unknown-type lookup, which leaves the container unchanged.
- RxJS internals (`queueScheduler`, `observeOn`, the `BehaviorSubject`/`distinctUntilChanged` pipe) are not modelled. Subjects are append-only logs. The state subject feeds the view synchronously, and the view's own identity check stands in for `distinctUntilChanged`.
- JavaScript reference identity is modelled by Dafny value equality, so two structurally equal objects count as the same state. Mutating an object in place cannot be expressed.
- A subscriber unsubscribing from the state view is not modelled; the notifier never completes, so a new subscription is always open when the replay happens.
- The epics' own behaviour (interval timers, `ajax`, console logging) and the demo's JSX component are time- and network-driven and are not modelled. This includes the timer scenario of the demo test (test/use-epics.test.tsx:51-60).
- The TypeScript conditional and mapped types (src/index.ts:37-77) have no runtime behaviour. dist/index.d.ts holds declarations only.
- App.js, an earlier prototype of the same hook, is not part of this model.
- `num` is an unbounded integer; JavaScript doubles lose precision beyond 2^53.
