/**
 * What the merge loop of `addQueryParam` does to a URL's query list, for
 * every query and every validated list of `key=value` entries.
 */
module MergeProperties {
  import opened SearchParams
  import opened AddQueryParam

  /** The key of the entry at position `i`. */
  function KeyAt(params: seq<string>, i: nat): string
    requires AllHaveEquals(params) && i < |params|
  {
    SplitEntry(params[i]).name
  }

  /** The pairs the entries would append to a query holding none of their keys. */
  function NewPairs(params: seq<string>): (r: seq<Pair>)
    requires AllHaveEquals(params)
    ensures |r| == |params|
  {
    if params == [] then []
    else NewPairs(params[..|params| - 1]) + [SplitEntry(params[|params| - 1])]
  }

  /**
   * After the loop an entry's key is settled: either it holds a truthy value
   * (which a later run skips), or it is the only pair of that name and holds
   * exactly the entry's value.
   */
  predicate Settled(pairs: seq<Pair>, entry: string)
    requires '=' in entry
  {
    var kv := SplitEntry(entry);
    Truthy(Get(pairs, kv.name)) || Restrict(pairs, {kv.name}) == [kv]
  }

  /**
   * Pairs whose name is not one of the configured keys keep their values and
   * their relative order.
   */
  lemma {:induction false} MergeKeepsUnconfigured(query: seq<Pair>, params: seq<string>, keys: set<string>)
    requires AllHaveEquals(params)
    requires forall i :: 0 <= i < |params| ==> KeyAt(params, i) in keys
    ensures Except(Merge(query, params), keys) == Except(query, keys)
  {
    if params != [] {
      var init := params[..|params| - 1];
      assert forall i :: 0 <= i < |init| ==> KeyAt(init, i) == KeyAt(params, i);
      MergeKeepsUnconfigured(query, init, keys);
      var m := Merge(query, init);
      var kv := SplitEntry(params[|params| - 1]);
      assert kv.name == KeyAt(params, |params| - 1);
      if !Truthy(Get(m, kv.name)) {
        SetKeepsOutside(m, kv.name, kv.value, keys);
      }
    }
  }

  /**
   * A key that already holds a non-empty value is never touched: its pairs
   * (value and number) are exactly those of the original query.
   */
  lemma {:induction false} MergeKeepsTruthy(query: seq<Pair>, params: seq<string>, name: string)
    requires AllHaveEquals(params)
    requires Truthy(Get(query, name))
    ensures Restrict(Merge(query, params), {name}) == Restrict(query, {name})
    ensures Get(Merge(query, params), name) == Get(query, name)
  {
    if params != [] {
      var init := params[..|params| - 1];
      MergeKeepsTruthy(query, init, name);
      var m := Merge(query, init);
      var kv := SplitEntry(params[|params| - 1]);
      if !Truthy(Get(m, kv.name)) {
        assert kv.name != name;
        SetKeepsOtherNames(m, kv.name, kv.value, {name});
        GetIsFirstOfRestrict(Set(m, kv.name, kv.value), name);
        GetIsFirstOfRestrict(query, name);
      }
    }
  }

  /** Names of the new pairs are exactly the configured keys. */
  lemma {:induction false} NamesOfNewPairs(params: seq<string>, name: string)
    requires AllHaveEquals(params)
    ensures name in Names(NewPairs(params)) <==> exists i :: 0 <= i < |params| && KeyAt(params, i) == name
  {
    if params != [] {
      var init := params[..|params| - 1];
      assert forall i :: 0 <= i < |init| ==> KeyAt(init, i) == KeyAt(params, i);
      NamesOfNewPairs(init, name);
      NamesAppend(NewPairs(init), [SplitEntry(params[|params| - 1])]);
      if name in Names(NewPairs(params)) && name !in Names(NewPairs(init)) {
        assert KeyAt(params, |params| - 1) == name;
      }
    }
  }

  /**
   * Configured keys that are all different and all absent from the query are
   * appended after the existing pairs, in configuration order, and the
   * existing pairs are kept as they were.
   */
  lemma {:induction false} MergeAppendsAbsent(query: seq<Pair>, params: seq<string>)
    requires AllHaveEquals(params)
    requires forall i :: 0 <= i < |params| ==> KeyAt(params, i) !in Names(query)
    requires forall i, j :: 0 <= i < j < |params| ==> KeyAt(params, i) != KeyAt(params, j)
    ensures Merge(query, params) == query + NewPairs(params)
  {
    if params != [] {
      var init := params[..|params| - 1];
      var last := |params| - 1;
      assert forall i :: 0 <= i < |init| ==> KeyAt(init, i) == KeyAt(params, i);
      MergeAppendsAbsent(query, init);
      var kv := SplitEntry(params[last]);
      assert kv.name == KeyAt(params, last);
      NamesOfNewPairs(init, kv.name);
      NamesAppend(query, NewPairs(init));
      assert kv.name !in Names(query + NewPairs(init));
    }
  }

  /**
   * A list that starts with `query` gives every name that `query` holds
   * truthily that same value: `get` stops at the first pair.
   */
  lemma {:induction false} TruthyInExtension(query: seq<Pair>, pairs: seq<Pair>, name: string)
    requires |query| <= |pairs| && pairs[..|query|] == query
    ensures Truthy(Get(query, name)) ==> Get(pairs, name) == Get(query, name)
  {
    if query != [] {
      assert pairs[0] == query[0];
      assert pairs[1..][..|query| - 1] == query[1..];
      TruthyInExtension(query[1..], pairs[1..], name);
    }
  }

  /** In a list that starts with `query`, the first pair of a name `query` lacks lies after `query`. */
  lemma {:induction false} FirstIndexBeyondPrefix(query: seq<Pair>, pairs: seq<Pair>, name: string)
    requires |query| <= |pairs| && pairs[..|query|] == query
    requires name in Names(pairs) && name !in Names(query)
    ensures FirstIndex(pairs, name) >= |query|
  {
    if query != [] {
      assert pairs[0] == query[0];
      assert pairs[1..][..|query| - 1] == query[1..];
      FirstIndexBeyondPrefix(query[1..], pairs[1..], name);
    }
  }

  /**
   * When every configured key is either missing from the query or already
   * holds a non-empty value there, the loop only appends: the original
   * pairs stay first, unchanged and in order.
   */
  lemma {:induction false} MergeKeepsExistingPrefix(query: seq<Pair>, params: seq<string>)
    requires AllHaveEquals(params)
    requires forall i :: 0 <= i < |params| ==>
      KeyAt(params, i) !in Names(query) || Truthy(Get(query, KeyAt(params, i)))
    ensures |query| <= |Merge(query, params)| && Merge(query, params)[..|query|] == query
  {
    if params != [] {
      var init := params[..|params| - 1];
      assert forall i :: 0 <= i < |init| ==> KeyAt(init, i) == KeyAt(params, i);
      MergeKeepsExistingPrefix(query, init);
      var m := Merge(query, init);
      var kv := SplitEntry(params[|params| - 1]);
      assert kv.name == KeyAt(params, |params| - 1);
      if !Truthy(Get(m, kv.name)) {
        TruthyInExtension(query, m, kv.name);
        assert kv.name !in Names(query);
        var r := Set(m, kv.name, kv.value);
        if kv.name in Names(m) {
          var i := FirstIndex(m, kv.name);
          FirstIndexBeyondPrefix(query, m, kv.name);
          assert r[..|query|] == r[..i][..|query|];
        }
      }
    }
  }

  /** Every configured entry is settled once the loop has run, and so every configured key is present. */
  lemma {:induction false} MergeSettles(query: seq<Pair>, params: seq<string>)
    requires AllHaveEquals(params)
    ensures forall i :: 0 <= i < |params| ==> Settled(Merge(query, params), params[i])
    ensures forall i :: 0 <= i < |params| ==> Get(Merge(query, params), KeyAt(params, i)).Some?
  {
    if params != [] {
      var init := params[..|params| - 1];
      var e := params[|params| - 1];
      MergeSettles(query, init);
      var m := Merge(query, init);
      var kv := SplitEntry(e);
      var r := Step(m, e);
      assert r == Merge(query, params);
      forall i | 0 <= i < |params|
        ensures Settled(r, params[i])
      {
        if i < |params| - 1 && !Truthy(Get(m, kv.name)) {
          assert params[i] == init[i];
          var kv' := SplitEntry(params[i]);
          if kv'.name != kv.name {
            SetKeepsOtherNames(m, kv.name, kv.value, {kv'.name});
            GetIsFirstOfRestrict(m, kv'.name);
            GetIsFirstOfRestrict(r, kv'.name);
          } else {
            GetIsFirstOfRestrict(m, kv.name);
            GetIsFirstOfRestrict(r, kv.name);
          }
        }
      }
      forall i | 0 <= i < |params|
        ensures Get(r, KeyAt(params, i)).Some?
      {
        GetIsFirstOfRestrict(r, KeyAt(params, i));
      }
    }
  }

  /** A query in which every entry is already settled is a fixed point of the loop. */
  lemma {:induction false} MergeOfSettled(pairs: seq<Pair>, params: seq<string>)
    requires AllHaveEquals(params)
    requires forall i :: 0 <= i < |params| ==> Settled(pairs, params[i])
    ensures Merge(pairs, params) == pairs
  {
    if params != [] {
      var init := params[..|params| - 1];
      assert forall i :: 0 <= i < |init| ==> init[i] == params[i];
      MergeOfSettled(pairs, init);
      var kv := SplitEntry(params[|params| - 1]);
      assert Settled(pairs, params[|params| - 1]);
      if !Truthy(Get(pairs, kv.name)) {
        SetSameValue(pairs, kv.name, kv.value);
      }
    }
  }

  /** Running the loop a second time with the same entries changes nothing. */
  lemma MergeIdempotent(query: seq<Pair>, params: seq<string>)
    requires AllHaveEquals(params)
    ensures Merge(Merge(query, params), params) == Merge(query, params)
  {
    MergeSettles(query, params);
    MergeOfSettled(Merge(query, params), params);
  }
}
