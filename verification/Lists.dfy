/** Operations on lists, and on maps of lists. */
module Lists {

  function Last<T>(xs: seq<T>): T
    requires xs != []
  {
    xs[|xs| - 1]
  }

  function Filter<T>(xs: seq<T>, p: T -> bool): seq<T> {
    if xs == [] then
      []
    else
      var ys := Filter(xs[..|xs| - 1], p);
      if p(Last(xs)) then ys + [Last(xs)] else ys
  }

  lemma {:induction false} FilterMembers<T>(xs: seq<T>, p: T -> bool, x: T)
    ensures x in Filter(xs, p) <==> x in xs && p(x)
  {
    if xs != [] {
      FilterMembers(xs[..|xs| - 1], p, x);
      assert xs == xs[..|xs| - 1] + [Last(xs)];
    }
  }

  function Apply<S, T>(xs: seq<S>, f: S -> T): (ys: seq<T>)
    ensures |ys| == |xs| && forall i :: 0 <= i < |xs| ==> ys[i] == f(xs[i])
  {
    seq(|xs|, i requires 0 <= i < |xs| => f(xs[i]))
  }

  function Concat<S, T>(xs: seq<S>, f: S -> seq<T>): seq<T> {
    if xs == [] then [] else Concat(xs[..|xs| - 1], f) + f(Last(xs))
  }

  lemma {:induction false} ConcatStep<S, T>(xs: seq<S>, x: S, f: S -> seq<T>)
    ensures Concat(xs + [x], f) == Concat(xs, f) + f(x)
  {
    assert (xs + [x])[..|xs|] == xs;
  }

  function Count<T(==)>(xs: seq<T>, x: T): nat {
    if xs == [] then 0 else Count(xs[..|xs| - 1], x) + if Last(xs) == x then 1 else 0
  }

  lemma {:induction false} CountIsMultiplicity<T>(xs: seq<T>, x: T)
    ensures Count(xs, x) == multiset(xs)[x]
  {
    if xs != [] {
      CountIsMultiplicity(xs[..|xs| - 1], x);
      assert xs == xs[..|xs| - 1] + [Last(xs)];
    }
  }

  lemma {:induction false} ConcatSame<S, T>(xs: seq<S>, f: S -> seq<T>, g: S -> seq<T>)
    requires forall i :: 0 <= i < |xs| ==> f(xs[i]) == g(xs[i])
    ensures Concat(xs, f) == Concat(xs, g)
  {
    if xs != [] {
      ConcatSame(xs[..|xs| - 1], f, g);
    }
  }

  function Repeat<T>(x: T, n: nat): (xs: seq<T>)
    ensures |xs| == n && forall i :: 0 <= i < n ==> xs[i] == x
  {
    seq(n, _ => x)
  }

  ghost predicate Distinct<T>(xs: seq<T>) {
    forall i, j :: 0 <= i < j < |xs| ==> xs[i] != xs[j]
  }

  lemma {:induction false} DistinctSnoc<T>(xs: seq<T>, x: T)
    requires Distinct(xs) && x !in xs
    ensures Distinct(xs + [x])
  {
  }

  function MovedFirst<T>(xs: seq<T>, i: nat): seq<T>
    requires i < |xs|
  {
    [xs[i]] + xs[..i] + xs[i + 1..]
  }

  lemma {:induction false} MovedMembers<T>(xs: seq<T>, i: nat, x: T)
    requires i < |xs|
    ensures x in MovedFirst(xs, i) <==> x in xs
  {
    assert xs == xs[..i] + [xs[i]] + xs[i + 1..];
  }

  lemma {:induction false} MovedDistinct<T>(xs: seq<T>, i: nat)
    requires i < |xs| && Distinct(xs)
    ensures Distinct(MovedFirst(xs, i))
  {
    var ys := MovedFirst(xs, i);
    assert forall j :: 0 < j < |ys| ==> ys[j] == if j <= i then xs[j - 1] else xs[j];
    forall j, l | 0 <= j < l < |ys| ensures ys[j] != ys[l] {
      var from := if j == 0 then i else if j <= i then j - 1 else j;
      var to := if l <= i then l - 1 else l;
      assert ys[j] == xs[from] && ys[l] == xs[to] && from != to;
    }
  }

  /** Names given to distinct keys are distinct exactly when no two keys clash. */
  lemma {:induction false} DistinctImages(keys: seq<string>, names: seq<string>, clash: (string, string) -> bool)
    requires Distinct(keys) && |names| == |keys|
    requires forall i, j :: 0 <= i < |keys| && 0 <= j < |keys| && i != j ==>
      (names[i] == names[j] <==> clash(keys[i], keys[j]) || clash(keys[j], keys[i]))
    ensures Distinct(names) <==> forall k, l :: k != l && k in keys && l in keys ==> !clash(k, l)
  {
    forall k, l | k != l && k in keys && l in keys && clash(k, l) ensures !Distinct(names) {
      var i :| 0 <= i < |keys| && keys[i] == k;
      var j :| 0 <= j < |keys| && keys[j] == l;
      assert names[i] == names[j];
    }
  }

  /** A map lookup with Go's zero value for a missing key. */
  function Lookup<T>(m: map<string, T>, k: string, zero: T): T {
    if k in m then m[k] else zero
  }

  /** The entry of a map of slices, empty when the key is missing. */
  function Entry<T>(m: map<string, seq<T>>, k: string): seq<T> {
    if k in m then m[k] else []
  }

  /** The map of slices after m[k] = append(m[k], v) for each v of vs. */
  function PushAll<T>(m: map<string, seq<T>>, k: string, vs: seq<T>): map<string, seq<T>> {
    if vs == [] then m else m[k := Entry(m, k) + vs]
  }

  /** The map after m[k] = v for each k of keys. */
  function PutAll<T>(m: map<string, T>, keys: seq<string>, v: T): map<string, T> {
    if keys == [] then m else PutAll(m, keys[..|keys| - 1], v)[Last(keys) := v]
  }

  /** The map of slices after m[k] = append(m[k], v) for each k of keys. */
  function PushUnder<T>(m: map<string, seq<T>>, keys: seq<string>, v: T): map<string, seq<T>> {
    if keys == [] then
      m
    else
      var m' := PushUnder(m, keys[..|keys| - 1], v);
      m'[Last(keys) := Entry(m', Last(keys)) + [v]]
  }

  lemma {:induction false} PushUnderMeaning<T>(m: map<string, seq<T>>, keys: seq<string>, v: T, k: string)
    ensures Entry(PushUnder(m, keys, v), k) == Entry(m, k) + Repeat(v, Count(keys, k))
  {
    if keys == [] {
      assert Entry(m, k) + Repeat(v, 0) == Entry(m, k);
    } else {
      var n := Count(keys[..|keys| - 1], k);
      PushUnderMeaning(m, keys[..|keys| - 1], v, k);
      assert Repeat(v, n) + [v] == Repeat(v, n + 1);
      assert Entry(m, k) + Repeat(v, n) + [v] == Entry(m, k) + Repeat(v, n + 1);
    }
  }

  lemma {:induction false} PushUnderNonEmpty<T>(m: map<string, seq<T>>, keys: seq<string>, v: T)
    requires forall k :: k in m ==> m[k] != []
    ensures forall k :: k in PushUnder(m, keys, v) ==> PushUnder(m, keys, v)[k] != []
  {
    if keys != [] {
      PushUnderNonEmpty(m, keys[..|keys| - 1], v);
    }
  }

  method AppendEach<T>(m: map<string, seq<T>>, k: string, vs: seq<T>) returns (r: map<string, seq<T>>)
    ensures r == PushAll(m, k, vs)
  {
    r := m;
    for i := 0 to |vs|
      invariant r == PushAll(m, k, vs[..i])
    {
      assert vs[..i + 1] == vs[..i] + [vs[i]];
      assert i == 0 ==> vs[..i + 1] == [vs[i]];
      assert Entry(m, k) + vs[..i + 1] == Entry(m, k) + vs[..i] + [vs[i]];
      r := r[k := Entry(r, k) + [vs[i]]];
    }
    assert vs[..|vs|] == vs;
  }

  method PutEach<T>(m: map<string, T>, keys: seq<string>, v: T) returns (r: map<string, T>)
    ensures r == PutAll(m, keys, v)
  {
    r := m;
    for i := 0 to |keys|
      invariant r == PutAll(m, keys[..i], v)
    {
      assert keys[..i + 1][..i] == keys[..i];
      r := r[keys[i] := v];
    }
    assert keys[..|keys|] == keys;
  }

  method PushUnderEach<T>(m: map<string, seq<T>>, keys: seq<string>, v: T) returns (r: map<string, seq<T>>)
    ensures r == PushUnder(m, keys, v)
  {
    r := m;
    for i := 0 to |keys|
      invariant r == PushUnder(m, keys[..i], v)
    {
      assert keys[..i + 1][..i] == keys[..i];
      r := r[keys[i] := Entry(r, keys[i]) + [v]];
    }
    assert keys[..|keys|] == keys;
  }

  lemma {:induction false} PutAllMeaning<T>(m: map<string, T>, keys: seq<string>, v: T, k: string)
    ensures if k in keys then k in PutAll(m, keys, v) && PutAll(m, keys, v)[k] == v
            else (k in PutAll(m, keys, v) <==> k in m) && (k in m ==> PutAll(m, keys, v)[k] == m[k])
  {
    if keys != [] {
      PutAllMeaning(m, keys[..|keys| - 1], v, k);
      assert keys == keys[..|keys| - 1] + [Last(keys)];
    }
  }

  lemma {:induction false} CountPositive<T>(xs: seq<T>, x: T)
    ensures Count(xs, x) > 0 <==> x in xs
  {
    if xs != [] {
      CountPositive(xs[..|xs| - 1], x);
      assert xs == xs[..|xs| - 1] + [Last(xs)];
    }
  }

  lemma {:induction false} CountDistinct<T>(xs: seq<T>, x: T)
    requires Distinct(xs)
    ensures Count(xs, x) == if x in xs then 1 else 0
  {
    if xs != [] {
      var init := xs[..|xs| - 1];
      CountDistinct(init, x);
      assert xs == init + [Last(xs)];
    }
  }
}
