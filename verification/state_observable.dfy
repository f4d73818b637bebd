/** `StateObservable` (src/index.ts:13-35): a cached `value` plus a
    notifier. Subscribing replays the cached value at once; a value pushed
    by the source subject is ignored when it is identical to the cache and
    otherwise first stored in the cache and then sent to every subscriber.
    Dafny `==` stands for JavaScript reference identity (`!==`). */
module Observable {

  /** One call of a subscriber's `next` callback: the value it was given
      and the `.value` it would read from the observable during that call. */
  datatype Delivery<S> = Delivery(received: S, cached: S)

  /** `logs[i]` is everything subscriber `i` has been called with, in order. */
  datatype StateObservable<S> = StateObservable(value: S, logs: seq<seq<Delivery<S>>>)

  /** The constructor: the cache starts at `initialState`, nobody listens. */
  function Create<S>(initialState: S): (o: StateObservable<S>)
    ensures o.value == initialState && o.logs == []
  {
    StateObservable(initialState, [])
  }

  /** A new subscriber joins the notifier and is called with the current
      value at once (the notifier never completes, so the subscription is
      always open at that point). Existing subscribers hear nothing. */
  function Subscribe<S>(o: StateObservable<S>): (r: StateObservable<S>)
    ensures r.value == o.value
    ensures |r.logs| == |o.logs| + 1 && r.logs[..|o.logs|] == o.logs
    ensures Received(r.logs[|o.logs|]) == [o.value]
  {
    o.(logs := o.logs + [[Delivery(o.value, o.value)]])
  }

  /** The source subject's callback: an identical value changes nothing;
      a different one replaces the cache, then reaches every subscriber. */
  function SourceNext<S(==)>(o: StateObservable<S>, v: S): (r: StateObservable<S>)
    ensures v == o.value ==> r == o
    ensures v != o.value ==> r.value == v && |r.logs| == |o.logs|
    ensures v != o.value ==> forall i :: 0 <= i < |o.logs| ==> r.logs[i] == o.logs[i] + [Delivery(v, v)]
  {
    if v == o.value then o
    else
      var cached := o.(value := v);
      cached.(logs := Notify(cached.logs, v, cached.value))
  }

  /** `__notifier.next(v)`: every subscriber is called once with `v` while
      the observable's `.value` is `cached`. */
  function Notify<S>(logs: seq<seq<Delivery<S>>>, v: S, cached: S): (r: seq<seq<Delivery<S>>>)
    ensures |r| == |logs|
    ensures forall i :: 0 <= i < |logs| ==> r[i] == logs[i] + [Delivery(v, cached)]
  {
    seq(|logs|, i requires 0 <= i < |logs| => logs[i] + [Delivery(v, cached)])
  }

  /** The values a subscriber was called with. */
  function Received<S>(log: seq<Delivery<S>>): (vs: seq<S>)
    ensures |vs| == |log|
    ensures forall k :: 0 <= k < |log| ==> vs[k] == log[k].received
  {
    seq(|log|, k requires 0 <= k < |log| => log[k].received)
  }

  lemma ReceivedAppend<S>(log: seq<Delivery<S>>, d: Delivery<S>)
    ensures Received(log + [d]) == Received(log) + [d.received]
  {
  }

  /** The source subject emits `vs` one after another. */
  function Feed<S(==)>(o: StateObservable<S>, vs: seq<S>): (r: StateObservable<S>)
    ensures |r.logs| == |o.logs|
    ensures r.value == LastOr(o.value, vs)
    decreases |vs|
  {
    if vs == [] then o
    else
      assert vs[1..] != [] ==> vs[1..][|vs[1..]| - 1] == vs[|vs| - 1];
      Feed(SourceNext(o, vs[0]), vs[1..])
  }

  /** Reference definition of what subscribers should see: `vs` with every
      value equal to its predecessor (starting from `prev`) removed. */
  function Dedup<S(==)>(prev: S, vs: seq<S>): seq<S>
    decreases |vs|
  {
    if vs == [] then []
    else if vs[0] == prev then Dedup(prev, vs[1..])
    else [vs[0]] + Dedup(vs[0], vs[1..])
  }

  /** The last value of `vs`, or `prev` when there is none. */
  function LastOr<S>(prev: S, vs: seq<S>): S
  {
    if vs == [] then prev else vs[|vs| - 1]
  }

  /** What a well-behaved state view looks like to one subscriber: it was
      called at least once (the replay), the last value it got is the
      current cache, every call saw a cache already equal to the value
      passed, and no value was passed twice in a row. */
  predicate InSync<S(==)>(log: seq<Delivery<S>>, value: S)
  {
    && |log| > 0
    && log[|log| - 1].received == value
    && (forall k :: 0 <= k < |log| ==> log[k].cached == log[k].received)
    && (forall k :: 0 < k < |log| ==> log[k - 1].received != log[k].received)
  }

  predicate Consistent<S(==)>(o: StateObservable<S>)
  {
    forall i :: 0 <= i < |o.logs| ==> InSync(o.logs[i], o.value)
  }

  /** A fresh observable is consistent. */
  lemma CreateConsistent<S>(initialState: S)
    ensures Consistent(Create(initialState)) && Create(initialState).value == initialState
  {
  }

  /** Subscribing keeps every subscriber, old and new, in sync. */
  lemma SubscribeConsistent<S>(o: StateObservable<S>)
    requires Consistent(o)
    ensures Consistent(Subscribe(o))
  {
    var r := Subscribe(o);
    forall i | 0 <= i < |r.logs|
      ensures InSync(r.logs[i], r.value)
    {
      if i < |o.logs| {
        assert r.logs[i] == r.logs[..|o.logs|][i];
      }
    }
  }

  /** A source value keeps every subscriber in sync: each is told the new
      value only after the cache holds it, and never told a repeat. */
  lemma SourceNextConsistent<S>(o: StateObservable<S>, v: S)
    requires Consistent(o)
    ensures Consistent(SourceNext(o, v))
  {
    var r := SourceNext(o, v);
    if v != o.value {
      forall i | 0 <= i < |r.logs|
        ensures InSync(r.logs[i], r.value)
      {
        var log := o.logs[i];
        assert InSync(log, o.value);
        assert r.logs[i] == log + [Delivery(v, v)];
      }
    }
  }

  /** Any run of source values keeps every subscriber in sync. */
  lemma {:induction false} FeedConsistent<S>(o: StateObservable<S>, vs: seq<S>)
    requires Consistent(o)
    ensures Consistent(Feed(o, vs))
    decreases |vs|
  {
    if vs != [] {
      SourceNextConsistent(o, vs[0]);
      FeedConsistent(SourceNext(o, vs[0]), vs[1..]);
    }
  }

  /** Deduplication: after the source emits `vs`, each existing subscriber
      has additionally received exactly `vs` with adjacent repeats (and a
      leading repeat of the cache) removed, and the cache holds the last
      value emitted. */
  lemma {:induction false} FeedDelivers<S>(o: StateObservable<S>, vs: seq<S>, i: nat)
    requires i < |o.logs|
    ensures Received(Feed(o, vs).logs[i]) == Received(o.logs[i]) + Dedup(o.value, vs)
    decreases |vs|
  {
    if vs != [] {
      var o' := SourceNext(o, vs[0]);
      FeedDelivers(o', vs[1..], i);
      if vs[0] != o.value {
        ReceivedAppend(o.logs[i], Delivery(vs[0], vs[0]));
      }
    }
  }

  /** Replay: a subscriber that joins now first receives the current
      value, then the deduplicated values the source emits later. */
  lemma SubscribeThenFeed<S>(o: StateObservable<S>, vs: seq<S>)
    ensures Received(Feed(Subscribe(o), vs).logs[|o.logs|]) == [o.value] + Dedup(o.value, vs)
  {
    FeedDelivers(Subscribe(o), vs, |o.logs|);
  }

  /** "should mirror the source subject": subscribe to an observable
      created with "first", then the source emits "second", "third". */
  lemma MirrorScenario()
    ensures Received(Feed(Subscribe(Create("first")), ["second", "third"]).logs[0]) == ["first", "second", "third"]
  {
    SubscribeThenFeed(Create("first"), ["second", "third"]);
    assert ["second", "third"][1..] == ["third"];
  }

  /** "should only update when the next value differs": pushing the cached
      value again calls nobody; a new value calls every subscriber once. */
  lemma RepeatScenario(first: string, second: string)
    requires first != second
    ensures Received(Feed(Subscribe(Create(first)), [first, first, second]).logs[0]) == [first, second]
    ensures Feed(Subscribe(Create(first)), [first, first, second]).value == second
  {
    SubscribeThenFeed(Create(first), [first, first, second]);
    FeedDelivers(Subscribe(Create(first)), [first, first, second], 0);
    assert [first, first, second][1..] == [first, second];
    assert [first, second][1..] == [second];
    assert Dedup(first, [second]) == [second];
    assert Dedup(first, [first, second]) == [second];
  }
}
