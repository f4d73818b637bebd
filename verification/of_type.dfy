/** The `ofType` stream operator (src/index.ts:160-180): a filter over a
    finite stream of actions that keeps an action iff it is present (not
    falsy) and its `type` is one of the given keys. */
module OfType {
  import opened Wrappers
  import opened Actions

  /** The general path: the `for` loop scanning `keys[i..]` for `t`. */
  function ScanKeys(keys: seq<string>, t: string, i: nat): (found: bool)
    requires i <= |keys|
    ensures found <==> t in keys[i..]
    decreases |keys| - i
  {
    if i == |keys| then false
    else if t == keys[i] then true
    else
      assert keys[i..] == [keys[i]] + keys[i + 1..];
      ScanKeys(keys, t, i + 1)
  }

  /** The filter predicate: a falsy item is dropped; with one key the
      type is compared directly, otherwise the keys are scanned. */
  function Keep<P>(keys: seq<string>, item: Option<Action<P>>): (keep: bool)
    ensures keep <==> item.Some? && item.value.kind in keys
  {
    if item.None? then false
    else if |keys| == 1 then item.value.kind == keys[0]
    else
      assert keys[0..] == keys;
      ScanKeys(keys, item.value.kind, 0)
  }

  /** Reference definition of the filtered stream, one item at a time. */
  function Selected<P>(keys: seq<string>, source: seq<Option<Action<P>>>): (out: seq<Action<P>>)
    ensures |out| <= |source|
    ensures forall a :: a in out ==> a.kind in keys && Some(a) in source
  {
    if source == [] then []
    else
      var init := source[..|source| - 1];
      var last := source[|source| - 1];
      assert forall x :: x in init ==> x in source;
      Selected(keys, init) + (if Keep(keys, last) then [last.value] else [])
  }

  /** `source.pipe(ofType(...keys))` run over a finite stream. */
  method Apply<P>(keys: seq<string>, source: seq<Option<Action<P>>>) returns (out: seq<Action<P>>)
    ensures out == Selected(keys, source)
  {
    out := [];
    var i := 0;
    while i < |source|
      invariant 0 <= i <= |source|
      invariant out == Selected(keys, source[..i])
    {
      assert source[..i + 1][..i] == source[..i];
      if Keep(keys, source[i]) {
        out := out + [source[i].value];
      }
      i := i + 1;
    }
    assert source[..|source|] == source;
  }

  /** The single-key fast path agrees with the general membership scan. */
  lemma FastPathAgrees(keys: seq<string>, t: string)
    requires |keys| == 1
    ensures (t == keys[0]) == ScanKeys(keys, t, 0)
  {
    assert keys[0..] == keys;
  }

  /** Filtering is item-wise: the filter of a concatenation is the
      concatenation of the filters, so relative order is preserved. */
  lemma {:induction false} SelectedAppend<P>(keys: seq<string>, a: seq<Option<Action<P>>>, b: seq<Option<Action<P>>>)
    ensures Selected(keys, a + b) == Selected(keys, a) + Selected(keys, b)
    decreases |b|
  {
    if b == [] {
      assert a + b == a;
    } else {
      var b' := b[..|b| - 1];
      var x := b[|b| - 1];
      assert (a + b)[..|a + b| - 1] == a + b';
      assert (a + b)[|a + b| - 1] == x;
      SelectedAppend(keys, a, b');
    }
  }

  /** The filter of a single item. */
  lemma SelectedSingle<P>(keys: seq<string>, x: Option<Action<P>>)
    ensures Selected(keys, [x]) == (if x.Some? && x.value.kind in keys then [x.value] else [])
  {
    assert [x][..0] == [];
  }

  /** An action is in the output iff it occurs (present) in the source and
      its type is one of the keys. */
  lemma SelectedMembership<P>(keys: seq<string>, source: seq<Option<Action<P>>>, a: Action<P>)
    ensures a in Selected(keys, source) <==> a.kind in keys && Some(a) in source
  {
    if a.kind in keys && Some(a) in source {
      var i :| 0 <= i < |source| && source[i] == Some(a);
      assert source == source[..i] + [source[i]] + source[i + 1..];
      SelectedAppend(keys, source[..i] + [source[i]], source[i + 1..]);
      SelectedAppend(keys, source[..i], [source[i]]);
      SelectedSingle(keys, source[i]);
    }
  }

  /** With zero keys nothing passes. */
  lemma NoKeysNothingPasses<P>(source: seq<Option<Action<P>>>)
    ensures Selected([], source) == []
  {
  }

  /** Re-applying the same filter to its own output changes nothing. */
  lemma {:induction false} SelectedIdempotent<P>(keys: seq<string>, source: seq<Option<Action<P>>>)
    ensures Selected(keys, Present(Selected(keys, source))) == Selected(keys, source)
    decreases |source|
  {
    if source != [] {
      var init := source[..|source| - 1];
      var last := source[|source| - 1];
      var tail := if Keep(keys, last) then [last.value] else [];
      SelectedIdempotent(keys, init);
      PresentAppend(Selected(keys, init), tail);
      SelectedAppend(keys, Present(Selected(keys, init)), Present(tail));
      if Keep(keys, last) {
        assert Present(tail) == [Some(last.value)];
        SelectedSingle(keys, Some(last.value));
      } else {
        assert Present(tail) == [];
      }
    }
  }

  /** Every action as a present stream item. */
  function Present<P>(xs: seq<Action<P>>): (items: seq<Option<Action<P>>>)
    ensures |items| == |xs|
    ensures forall i :: 0 <= i < |xs| ==> items[i] == Some(xs[i])
  {
    seq(|xs|, i requires 0 <= i < |xs| => Some(xs[i]))
  }

  lemma PresentAppend<P>(xs: seq<Action<P>>, ys: seq<Action<P>>)
    ensures Present(xs + ys) == Present(xs) + Present(ys)
  {
  }

  /** `ofType('A')` over `{type:'A'}`, a falsy item, `{type:'B'}`,
      `{type:'A'}` yields exactly the two 'A' actions, in order. */
  lemma SingleKeyScenario(a0: Action<int>, b: Action<int>, a1: Action<int>)
    requires a0.kind == "A" && a1.kind == "A" && b.kind == "B"
    ensures Selected(["A"], [Some(a0), None, Some(b), Some(a1)]) == [a0, a1]
  {
    assert [Some(a0), None, Some(b), Some(a1)] == [Some(a0), None] + [Some(b), Some(a1)];
    SelectedAppend(["A"], [Some(a0), None], [Some(b), Some(a1)]);
    Pair(["A"], Some(a0), None);
    Pair(["A"], Some(b), Some(a1));
  }

  /** The filter of a two-item stream, item by item. */
  lemma Pair<P>(keys: seq<string>, x: Option<Action<P>>, y: Option<Action<P>>)
    ensures Selected(keys, [x, y]) == Selected(keys, [x]) + Selected(keys, [y])
  {
    assert [x, y] == [x] + [y];
    SelectedAppend(keys, [x], [y]);
  }

  /** Two single-key filters on one stream: `ofType(M)` gets the two M
      actions in order and `ofType(L)` the one L action. */
  lemma FilterByTypeScenario(m0: Action<int>, m1: Action<int>, l0: Action<int>)
    requires m0.kind == "MARILLA" && m1.kind == "MARILLA" && l0.kind == "LORETTA"
    ensures Selected(["MARILLA"], [Some(m0), Some(m1), Some(l0)]) == [m0, m1]
    ensures Selected(["LORETTA"], [Some(m0), Some(m1), Some(l0)]) == [l0]
  {
    var s := [Some(m0), Some(m1), Some(l0)];
    assert s == [Some(m0), Some(m1)] + [Some(l0)];
    SelectedAppend(["MARILLA"], [Some(m0), Some(m1)], [Some(l0)]);
    SelectedAppend(["LORETTA"], [Some(m0), Some(m1)], [Some(l0)]);
    Pair(["MARILLA"], Some(m0), Some(m1));
    Pair(["LORETTA"], Some(m0), Some(m1));
    SelectedSingle(["LORETTA"], Some(m0));
    SelectedSingle(["LORETTA"], Some(m1));
    SelectedSingle(["LORETTA"], Some(l0));
    SelectedSingle(["MARILLA"], Some(l0));
  }

  /** Two keys: `ofType(M, MI)` keeps both M and MI actions and drops L. */
  lemma TwoKeyScenario(m: Action<int>, mi: Action<int>, l: Action<int>)
    requires m.kind == "MARILLA" && mi.kind == "MILO" && l.kind == "LORETTA"
    ensures Selected(["MARILLA", "MILO"], [Some(m), Some(mi), Some(l)]) == [m, mi]
  {
    var keys := ["MARILLA", "MILO"];
    assert [Some(m), Some(mi), Some(l)] == [Some(m), Some(mi)] + [Some(l)];
    SelectedAppend(keys, [Some(m), Some(mi)], [Some(l)]);
    Pair(keys, Some(m), Some(mi));
    SelectedSingle(keys, Some(m));
    SelectedSingle(keys, Some(mi));
    SelectedSingle(keys, Some(l));
  }
}
