/**
 * The list of name-value pairs behind a URL's `searchParams` object and the
 * two operations of section 6.2 of the WHATWG URL Standard (URLSearchParams)
 * that the plugin uses: `get` and `set`. Names are compared exactly
 * (case-sensitively).
 */
module SearchParams {
  import opened Wrappers

  datatype Pair = Pair(name: string, value: string)

  /** The names of the pairs, in list order. */
  function Names(pairs: seq<Pair>): (names: seq<string>)
    ensures |names| == |pairs|
  {
    if pairs == [] then [] else [pairs[0].name] + Names(pairs[1..])
  }

  /** The pairs whose name is in `keys`, in list order. */
  function Restrict(pairs: seq<Pair>, keys: set<string>): seq<Pair>
  {
    if pairs == [] then []
    else if pairs[0].name in keys then [pairs[0]] + Restrict(pairs[1..], keys)
    else Restrict(pairs[1..], keys)
  }

  /** The pairs whose name is not in `keys`, in list order. */
  function Except(pairs: seq<Pair>, keys: set<string>): seq<Pair>
  {
    if pairs == [] then []
    else if pairs[0].name in keys then Except(pairs[1..], keys)
    else [pairs[0]] + Except(pairs[1..], keys)
  }

  /** Position of the first pair called `name`. */
  function FirstIndex(pairs: seq<Pair>, name: string): (i: nat)
    requires name in Names(pairs)
    ensures i < |pairs| && pairs[i].name == name
    ensures name !in Names(pairs[..i])
  {
    if pairs[0].name == name then 0
    else
      var i := 1 + FirstIndex(pairs[1..], name);
      assert pairs[..i] == [pairs[0]] + pairs[1..][..i - 1];
      NamesAppend([pairs[0]], pairs[1..][..i - 1]);
      i
  }

  /**
   * `searchParams.get(name)`: the value of the first pair called `name`, or
   * `null` (None) when there is none.
   */
  function Get(pairs: seq<Pair>, name: string): (r: Option<string>)
    ensures r.None? <==> name !in Names(pairs)
    ensures r.Some? ==> r.value == pairs[FirstIndex(pairs, name)].value
  {
    if pairs == [] then None
    else if pairs[0].name == name then Some(pairs[0].value)
    else Get(pairs[1..], name)
  }

  /**
   * `searchParams.set(name, value)`: when a pair called `name` exists, the
   * first one takes the new value and every later one is removed; otherwise
   * the pair is appended at the end.
   */
  function Set(pairs: seq<Pair>, name: string, value: string): (r: seq<Pair>)
    ensures Restrict(r, {name}) == [Pair(name, value)]
    ensures Except(r, {name}) == Except(pairs, {name})
    ensures name in Names(pairs) ==>
      var i := FirstIndex(pairs, name);
      i < |r| && r[..i] == pairs[..i] && r[i] == Pair(name, value)
    ensures name !in Names(pairs) ==> r == pairs + [Pair(name, value)]
  {
    if name in Names(pairs) then ReplaceFirst(pairs, name, value)
    else
      RestrictAbsent(pairs, name);
      RestrictAppend(pairs, [Pair(name, value)], {name});
      ExceptAppend(pairs, [Pair(name, value)], {name});
      pairs + [Pair(name, value)]
  }

  /** The update of `set` when `name` is present. */
  function ReplaceFirst(pairs: seq<Pair>, name: string, value: string): (r: seq<Pair>)
    requires name in Names(pairs)
    ensures Restrict(r, {name}) == [Pair(name, value)]
    ensures Except(r, {name}) == Except(pairs, {name})
    ensures var i := FirstIndex(pairs, name);
      i < |r| && r[..i] == pairs[..i] && r[i] == Pair(name, value)
  {
    if pairs[0].name == name then
      var rest := Except(pairs[1..], {name});
      RestrictOfExcept(pairs[1..], {name});
      ExceptTwice(pairs[1..], name, {name});
      [Pair(name, value)] + rest
    else
      var rest := ReplaceFirst(pairs[1..], name, value);
      [pairs[0]] + rest
  }

  lemma {:induction false} NamesAppend(a: seq<Pair>, b: seq<Pair>)
    ensures Names(a + b) == Names(a) + Names(b)
  {
    if a == [] {
      assert a + b == b;
    } else {
      assert (a + b)[1..] == a[1..] + b;
      NamesAppend(a[1..], b);
    }
  }

  lemma {:induction false} RestrictAppend(a: seq<Pair>, b: seq<Pair>, keys: set<string>)
    ensures Restrict(a + b, keys) == Restrict(a, keys) + Restrict(b, keys)
  {
    if a == [] {
      assert a + b == b;
    } else {
      assert (a + b)[1..] == a[1..] + b;
      RestrictAppend(a[1..], b, keys);
    }
  }

  lemma {:induction false} ExceptAppend(a: seq<Pair>, b: seq<Pair>, keys: set<string>)
    ensures Except(a + b, keys) == Except(a, keys) + Except(b, keys)
  {
    if a == [] {
      assert a + b == b;
    } else {
      assert (a + b)[1..] == a[1..] + b;
      ExceptAppend(a[1..], b, keys);
    }
  }

  lemma {:induction false} RestrictAbsent(pairs: seq<Pair>, name: string)
    requires name !in Names(pairs)
    ensures Restrict(pairs, {name}) == []
  {
    if pairs != [] {
      RestrictAbsent(pairs[1..], name);
    }
  }

  lemma {:induction false} RestrictOfExcept(pairs: seq<Pair>, keys: set<string>)
    ensures Restrict(Except(pairs, keys), keys) == []
  {
    if pairs != [] {
      RestrictOfExcept(pairs[1..], keys);
    }
  }

  /** Removing `name` first does not change what is left after removing a superset of it. */
  lemma {:induction false} ExceptTwice(pairs: seq<Pair>, name: string, keys: set<string>)
    requires name in keys
    ensures Except(Except(pairs, {name}), keys) == Except(pairs, keys)
  {
    if pairs != [] {
      ExceptTwice(pairs[1..], name, keys);
    }
  }

  /** Removing pairs called `name` does not change the pairs whose names are in `keys`, when `name` is not one of them. */
  lemma {:induction false} RestrictIgnoresOther(pairs: seq<Pair>, name: string, keys: set<string>)
    requires name !in keys
    ensures Restrict(Except(pairs, {name}), keys) == Restrict(pairs, keys)
  {
    if pairs != [] {
      RestrictIgnoresOther(pairs[1..], name, keys);
    }
  }

  /** `get` reads the first pair of the sub-list of pairs with that name. */
  lemma {:induction false} GetIsFirstOfRestrict(pairs: seq<Pair>, name: string)
    ensures Get(pairs, name) ==
      var named := Restrict(pairs, {name});
      if named == [] then None else Some(named[0].value)
  {
    if pairs != [] && pairs[0].name != name {
      GetIsFirstOfRestrict(pairs[1..], name);
    }
  }

  /** `set` of one name leaves the pairs of every other name exactly as they were. */
  lemma SetKeepsOtherNames(pairs: seq<Pair>, name: string, value: string, keys: set<string>)
    requires name !in keys
    ensures Restrict(Set(pairs, name, value), keys) == Restrict(pairs, keys)
  {
    var r := Set(pairs, name, value);
    RestrictIgnoresOther(r, name, keys);
    RestrictIgnoresOther(pairs, name, keys);
  }

  /** `set` of a name in `keys` leaves every pair whose name is outside `keys` exactly as it was, in order. */
  lemma SetKeepsOutside(pairs: seq<Pair>, name: string, value: string, keys: set<string>)
    requires name in keys
    ensures Except(Set(pairs, name, value), keys) == Except(pairs, keys)
  {
    var r := Set(pairs, name, value);
    ExceptTwice(r, name, keys);
    ExceptTwice(pairs, name, keys);
  }

  lemma {:induction false} ExceptAbsent(pairs: seq<Pair>, keys: set<string>)
    requires Restrict(pairs, keys) == []
    ensures Except(pairs, keys) == pairs
  {
    if pairs != [] {
      ExceptAbsent(pairs[1..], keys);
      assert [pairs[0]] + pairs[1..] == pairs;
    }
  }

  /** `set` of the value a name already has, when it is the only pair of that name, changes nothing. */
  lemma {:induction false} SetSameValue(pairs: seq<Pair>, name: string, value: string)
    requires Restrict(pairs, {name}) == [Pair(name, value)]
    ensures Set(pairs, name, value) == pairs
  {
    ReplaceFirstSameValue(pairs, name, value);
  }

  lemma {:induction false} ReplaceFirstSameValue(pairs: seq<Pair>, name: string, value: string)
    requires Restrict(pairs, {name}) == [Pair(name, value)]
    ensures name in Names(pairs) && ReplaceFirst(pairs, name, value) == pairs
  {
    if pairs[0].name == name {
      ExceptAbsent(pairs[1..], {name});
      assert [pairs[0]] + pairs[1..] == pairs;
    } else {
      ReplaceFirstSameValue(pairs[1..], name, value);
      assert [pairs[0]] + pairs[1..] == pairs;
    }
  }
}
