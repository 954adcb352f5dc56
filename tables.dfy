/** The six tables of the in-memory store are JavaScript `Map`s keyed by ids
    that an increasing counter issues.  A `Map` iterates in insertion order; a
    new key is always larger than every key issued before it, and `set` on a
    key that is already present keeps that key's place, so the iteration
    order is ascending key order.  `ValuesFrom(m, lo, hi)` is what
    `Array.from(m.values())` returns for a map whose keys all lie in
    [lo, hi).  The array methods the store applies to that array (`filter`,
    `find`, `some`, `map`, a summing `reduce`) are the functions below, and the
    lemmas connect each of them to a definition over the map's key set that
    does not depend on the order. */
module Tables {
  import opened Wrappers

  /** `Map.prototype.get`. */
  function Get<T>(m: map<int, T>, k: int): (r: Option<T>)
    ensures r.Some? <==> k in m
    ensures r.Some? ==> r.value == m[k]
  {
    if k in m then Some(m[k]) else None
  }

  /** The values of `m` whose keys lie in [lo, hi), in ascending key order. */
  function ValuesFrom<T>(m: map<int, T>, lo: int, hi: int): seq<T>
    decreases hi - lo
  {
    if hi <= lo then []
    else (if lo in m then [m[lo]] else []) + ValuesFrom(m, lo + 1, hi)
  }

  /** `Array.prototype.filter`. */
  function Filter<T>(s: seq<T>, p: T -> bool): (r: seq<T>)
    ensures |r| <= |s|
    ensures forall i :: 0 <= i < |r| ==> r[i] in s && p(r[i])
    ensures forall i :: 0 <= i < |s| && p(s[i]) ==> s[i] in r
  {
    if s == [] then [] else (if p(s[0]) then [s[0]] else []) + Filter(s[1..], p)
  }

  /** `Array.prototype.map`. */
  function Map<T, U>(s: seq<T>, f: T -> U): (r: seq<U>)
    ensures |r| == |s|
    ensures forall i :: 0 <= i < |s| ==> r[i] == f(s[i])
  {
    seq(|s|, i requires 0 <= i < |s| => f(s[i]))
  }

  /** `Array.prototype.find`: the first element that satisfies `p`. */
  function Find<T>(s: seq<T>, p: T -> bool): (r: Option<T>)
    ensures r.None? <==> forall i :: 0 <= i < |s| ==> !p(s[i])
    ensures r.Some? ==> exists i :: 0 <= i < |s| && s[i] == r.value && p(s[i]) &&
                                    forall j :: 0 <= j < i ==> !p(s[j])
  {
    if s == [] then None
    else if p(s[0]) then Some(s[0])
    else
      var r := Find(s[1..], p);
      assert r.Some? ==> exists i :: 0 <= i < |s| - 1 && s[1..][i] == r.value && p(s[1..][i]) &&
                                     forall j :: 0 <= j < i ==> !p(s[1..][j]);
      r
  }

  /** `Array.prototype.some`. */
  function Any<T>(s: seq<T>, p: T -> bool): (b: bool)
    ensures b <==> exists i :: 0 <= i < |s| && p(s[i])
  {
    if s == [] then false else p(s[0]) || Any(s[1..], p)
  }

  /** `reduce((sum, x) => sum + f(x), 0)`, over exact integers. */
  function SumOf<T>(s: seq<T>, f: T -> int): int
  {
    if s == [] then 0 else f(s[0]) + SumOf(s[1..], f)
  }

  /** The least element of a non-empty set of integers. */
  ghost function MinOf(s: set<int>): (k: int)
    requires exists k :: k in s
    ensures k in s && forall j :: j in s ==> k <= j
  {
    HasMin(s);
    var k :| k in s && forall j :: j in s ==> k <= j;
    k
  }

  lemma {:induction false} HasMin(s: set<int>)
    requires exists k :: k in s
    ensures exists k :: k in s && forall j :: j in s ==> k <= j
    decreases s
  {
    var x :| x in s;
    var rest := s - {x};
    if exists y :: y in rest {
      HasMin(rest);
      var k :| k in rest && forall j :: j in rest ==> k <= j;
      var least := if x < k then x else k;
      forall j | j in s
        ensures least <= j
      {
        assert j == x || j in rest;
      }
    } else {
      forall j | j in s
        ensures x <= j
      {
        assert j == x || j in rest;
      }
    }
  }

  /** The sum of `f` over the values stored under `keys`, taken in no order
      that the store imposes: the reference definition for the totals. */
  ghost function SumOver<T>(m: map<int, T>, keys: set<int>, f: T -> int): int
    requires keys <= m.Keys
    decreases keys
  {
    if forall k :: k !in keys then 0
    else
      var k := MinOf(keys);
      f(m[k]) + SumOver(m, keys - {k}, f)
  }

  /** The keys in [lo, hi) whose values satisfy `p`. */
  ghost function KeysWhere<T>(m: map<int, T>, lo: int, hi: int, p: T -> bool): set<int>
  {
    set k | k in m && lo <= k < hi && p(m[k])
  }

  /** Splitting off the lowest key of a range. */
  lemma ValuesFromStep<T>(m: map<int, T>, lo: int, hi: int)
    requires lo < hi
    ensures lo in m ==> ValuesFrom(m, lo, hi) == [m[lo]] + ValuesFrom(m, lo + 1, hi)
    ensures lo !in m ==> ValuesFrom(m, lo, hi) == ValuesFrom(m, lo + 1, hi)
  {
  }

  lemma FilterCons<T>(x: T, s: seq<T>, p: T -> bool)
    ensures Filter([x] + s, p) == (if p(x) then [x] else []) + Filter(s, p)
  {
    assert ([x] + s)[1..] == s;
  }

  lemma SumOfCons<T>(x: T, s: seq<T>, f: T -> int)
    ensures SumOf([x] + s, f) == f(x) + SumOf(s, f)
  {
    assert ([x] + s)[1..] == s;
  }

  /** A value is listed iff it is stored under a key of the range. */
  lemma {:induction false} ValuesFromMembership<T>(m: map<int, T>, lo: int, hi: int, x: T)
    ensures x in ValuesFrom(m, lo, hi) <==> exists k :: k in m && lo <= k < hi && m[k] == x
    decreases hi - lo
  {
    if lo < hi {
      ValuesFromStep(m, lo, hi);
      ValuesFromMembership(m, lo + 1, hi, x);
      if x in ValuesFrom(m, lo, hi) && !(lo in m && m[lo] == x) {
        var k :| k in m && lo + 1 <= k < hi && m[k] == x;
        assert lo <= k;
      }
    }
  }

  /** The listing has one entry per key of the range. */
  lemma {:induction false} ValuesFromLength<T>(m: map<int, T>, lo: int, hi: int)
    ensures |ValuesFrom(m, lo, hi)| == |set k | k in m && lo <= k < hi|
    decreases hi - lo
  {
    var keys := set k | k in m && lo <= k < hi;
    if lo < hi {
      ValuesFromStep(m, lo, hi);
      ValuesFromLength(m, lo + 1, hi);
      var rest := set k | k in m && lo + 1 <= k < hi;
      if lo in m {
        assert keys == rest + {lo};
      } else {
        assert keys == rest;
      }
    } else {
      assert keys == {};
    }
  }

  /** Listed in strictly ascending key order, each value under its own key,
      given that every value records its key (`key`). */
  lemma {:induction false} ValuesFromAscending<T>(m: map<int, T>, lo: int, hi: int, key: T -> int)
    requires forall k :: k in m ==> key(m[k]) == k
    ensures forall i :: 0 <= i < |ValuesFrom(m, lo, hi)| ==>
              var x := ValuesFrom(m, lo, hi)[i];
              lo <= key(x) < hi && key(x) in m && m[key(x)] == x
    ensures forall i, j :: 0 <= i < j < |ValuesFrom(m, lo, hi)| ==>
              key(ValuesFrom(m, lo, hi)[i]) < key(ValuesFrom(m, lo, hi)[j])
    decreases hi - lo
  {
    if lo < hi {
      ValuesFromStep(m, lo, hi);
      ValuesFromAscending(m, lo + 1, hi, key);
    }
  }

  /** `filter(p).length` is the number of keys whose values satisfy `p`. */
  lemma {:induction false} FilterCount<T>(m: map<int, T>, lo: int, hi: int, p: T -> bool)
    ensures |Filter(ValuesFrom(m, lo, hi), p)| == |KeysWhere(m, lo, hi, p)|
    decreases hi - lo
  {
    var keys := KeysWhere(m, lo, hi, p);
    if lo < hi {
      ValuesFromStep(m, lo, hi);
      FilterCount(m, lo + 1, hi, p);
      var rest := KeysWhere(m, lo + 1, hi, p);
      if lo in m {
        FilterCons(m[lo], ValuesFrom(m, lo + 1, hi), p);
        if p(m[lo]) {
          assert keys == rest + {lo};
        } else {
          assert keys == rest;
        }
      } else {
        assert keys == rest;
      }
    } else {
      assert keys == {};
    }
  }

  /** The summing `reduce` over `filter(p)` equals the order-free sum over the
      keys whose values satisfy `p`. */
  lemma {:induction false} FilterSum<T>(m: map<int, T>, lo: int, hi: int, p: T -> bool, f: T -> int)
    ensures KeysWhere(m, lo, hi, p) <= m.Keys
    ensures SumOf(Filter(ValuesFrom(m, lo, hi), p), f) == SumOver(m, KeysWhere(m, lo, hi, p), f)
    decreases hi - lo
  {
    var keys := KeysWhere(m, lo, hi, p);
    if lo < hi {
      ValuesFromStep(m, lo, hi);
      FilterSum(m, lo + 1, hi, p, f);
      var rest := KeysWhere(m, lo + 1, hi, p);
      if lo in m {
        FilterCons(m[lo], ValuesFrom(m, lo + 1, hi), p);
        if p(m[lo]) {
          assert keys == rest + {lo};
          SumOfCons(m[lo], Filter(ValuesFrom(m, lo + 1, hi), p), f);
          var least := MinOf(keys);
          assert least == lo;
          assert keys - {lo} == rest;
        } else {
          assert keys == rest;
          assert Filter(ValuesFrom(m, lo, hi), p) == Filter(ValuesFrom(m, lo + 1, hi), p);
        }
      } else {
        assert keys == rest;
      }
    } else {
      assert keys == {};
    }
  }

  /** `some(p)` holds iff some key of the range holds a value satisfying `p`. */
  lemma {:induction false} AnyValue<T>(m: map<int, T>, lo: int, hi: int, p: T -> bool)
    ensures Any(ValuesFrom(m, lo, hi), p) <==> exists k :: k in m && lo <= k < hi && p(m[k])
  {
    var s := ValuesFrom(m, lo, hi);
    if Any(s, p) {
      var i :| 0 <= i < |s| && p(s[i]);
      ValuesFromMembership(m, lo, hi, s[i]);
    }
    if exists k :: k in m && lo <= k < hi && p(m[k]) {
      var k :| k in m && lo <= k < hi && p(m[k]);
      ValuesFromMembership(m, lo, hi, m[k]);
      var i :| 0 <= i < |s| && s[i] == m[k];
    }
  }

  /** `find(p)` returns the value under the least key whose value satisfies
      `p`, and nothing when no key does. */
  lemma FindValue<T>(m: map<int, T>, lo: int, hi: int, p: T -> bool)
    ensures Find(ValuesFrom(m, lo, hi), p).None? <==> forall k :: k in m && lo <= k < hi ==> !p(m[k])
    ensures Find(ValuesFrom(m, lo, hi), p).Some? ==>
              FirstKeyWhere(m, lo, hi, p, Find(ValuesFrom(m, lo, hi), p).value)
  {
    FindFirstKey(m, lo, hi, p);
    FirstKeySpec(m, lo, hi, p);
    var k := FirstKey(m, lo, hi, p);
    if k.Some? {
      assert k.value in m && lo <= k.value < hi;
    }
  }

  /** The least key of [lo, hi) whose value satisfies `p`. */
  ghost function FirstKey<T>(m: map<int, T>, lo: int, hi: int, p: T -> bool): (r: Option<int>)
    ensures r.Some? ==> r.value in m && lo <= r.value < hi
    decreases hi - lo
  {
    if hi <= lo then None
    else if lo in m && p(m[lo]) then Some(lo)
    else FirstKey(m, lo + 1, hi, p)
  }

  lemma {:induction false} FirstKeySpec<T>(m: map<int, T>, lo: int, hi: int, p: T -> bool)
    ensures FirstKey(m, lo, hi, p).None? <==> forall k :: k in m && lo <= k < hi ==> !p(m[k])
    ensures FirstKey(m, lo, hi, p).Some? ==>
              var k := FirstKey(m, lo, hi, p).value;
              k in m && lo <= k < hi && p(m[k]) && forall j :: j in m && lo <= j < k ==> !p(m[j])
    decreases hi - lo
  {
    if lo < hi && !(lo in m && p(m[lo])) {
      FirstKeySpec(m, lo + 1, hi, p);
    }
  }

  lemma FindCons<T>(x: T, s: seq<T>, p: T -> bool)
    ensures Find([x] + s, p) == if p(x) then Some(x) else Find(s, p)
  {
    assert ([x] + s)[0] == x;
    assert ([x] + s)[1..] == s;
  }

  lemma {:induction false} FindFirstKey<T>(m: map<int, T>, lo: int, hi: int, p: T -> bool)
    ensures Find(ValuesFrom(m, lo, hi), p) ==
            if FirstKey(m, lo, hi, p).Some? then Some(m[FirstKey(m, lo, hi, p).value]) else None
    decreases hi - lo
  {
    if lo < hi {
      ValuesFromStep(m, lo, hi);
      FindFirstKey(m, lo + 1, hi, p);
      if lo in m {
        FindCons(m[lo], ValuesFrom(m, lo + 1, hi), p);
      }
    }
  }

  /** `x` is stored under a key of [lo, hi), satisfies `p`, and no smaller key
      of the range holds a value satisfying `p`. */
  ghost predicate FirstKeyWhere<T>(m: map<int, T>, lo: int, hi: int, p: T -> bool, x: T)
  {
    exists k :: k in m && lo <= k < hi && m[k] == x && p(x) &&
                forall j :: j in m && lo <= j < k ==> !p(m[j])
  }

  /** `s` is in strictly ascending `key` order (so it has no duplicates). */
  ghost predicate Ascending<T>(s: seq<T>, key: T -> int)
  {
    forall i, j :: 0 <= i < j < |s| ==> key(s[i]) < key(s[j])
  }

  /** `s` lists every value of `m` once, in ascending `key` order. */
  ghost predicate Lists<T>(s: seq<T>, m: map<int, T>, key: T -> int)
  {
    && (forall i :: 0 <= i < |s| ==> key(s[i]) in m && m[key(s[i])] == s[i])
    && (forall k :: k in m ==> m[k] in s)
    && |s| == |m|
    && Ascending(s, key)
  }

  /** `s` lists every value of `m` that satisfies `p`, each once, in
      ascending `key` order, and nothing else. */
  ghost predicate ListsWhere<T>(s: seq<T>, m: map<int, T>, p: T -> bool, key: T -> int)
  {
    && (forall i :: 0 <= i < |s| ==> key(s[i]) in m && m[key(s[i])] == s[i] && p(s[i]))
    && (forall k :: k in m && p(m[k]) ==> m[k] in s)
    && Ascending(s, key)
  }

  /** `Array.from(m.values())` for a table whose rows carry their keys. */
  lemma Listing<T>(m: map<int, T>, lo: int, hi: int, key: T -> int)
    requires forall k :: k in m ==> lo <= k < hi && key(m[k]) == k
    ensures Lists(ValuesFrom(m, lo, hi), m, key)
  {
    var s := ValuesFrom(m, lo, hi);
    forall k | k in m
      ensures m[k] in s
    {
      ValuesFromMembership(m, lo, hi, m[k]);
    }
    forall i | 0 <= i < |s|
      ensures key(s[i]) in m && m[key(s[i])] == s[i]
    {
      ValuesFromMembership(m, lo, hi, s[i]);
    }
    ValuesFromLength(m, lo, hi);
    assert (set k | k in m && lo <= k < hi) == m.Keys;
    ValuesFromAscending(m, lo, hi, key);
  }

  /** Filtering keeps the order of what it keeps. */
  lemma {:induction false} FilterAscending<T>(s: seq<T>, p: T -> bool, key: T -> int)
    requires Ascending(s, key)
    ensures Ascending(Filter(s, p), key)
  {
    if s != [] {
      var rest := s[1..];
      assert Ascending(rest, key) by {
        forall i, j | 0 <= i < j < |rest|
          ensures key(rest[i]) < key(rest[j])
        {
          assert rest[i] == s[i + 1] && rest[j] == s[j + 1];
        }
      }
      FilterAscending(rest, p, key);
      var t := Filter(rest, p);
      assert s == [s[0]] + rest;
      FilterCons(s[0], rest, p);
      if p(s[0]) {
        forall i | 0 <= i < |t|
          ensures key(s[0]) < key(t[i])
        {
          var j :| 0 <= j < |rest| && rest[j] == t[i];
          assert s[j + 1] == t[i];
        }
        AscendingCons(s[0], t, key);
      }
    }
  }

  lemma AscendingCons<T>(x: T, t: seq<T>, key: T -> int)
    requires Ascending(t, key)
    requires forall i :: 0 <= i < |t| ==> key(x) < key(t[i])
    ensures Ascending([x] + t, key)
  {
    var s := [x] + t;
    forall i, j | 0 <= i < j < |s|
      ensures key(s[i]) < key(s[j])
    {
      assert s[j] == t[j - 1];
      if i > 0 {
        assert s[i] == t[i - 1];
      }
    }
  }

  /** `Array.from(m.values()).filter(p)` for a table whose rows carry their
      keys. */
  lemma FilteredListing<T>(m: map<int, T>, lo: int, hi: int, p: T -> bool, key: T -> int)
    requires forall k :: k in m ==> lo <= k < hi && key(m[k]) == k
    ensures ListsWhere(Filter(ValuesFrom(m, lo, hi), p), m, p, key)
  {
    Listing(m, lo, hi, key);
    FilterAscending(ValuesFrom(m, lo, hi), p, key);
    var s := ValuesFrom(m, lo, hi);
    forall k | k in m && p(m[k])
      ensures m[k] in Filter(s, p)
    {
      var i :| 0 <= i < |s| && s[i] == m[k];
    }
  }

  /** Filtering with a predicate every element satisfies changes nothing. */
  lemma {:induction false} FilterAll<T>(s: seq<T>, p: T -> bool)
    requires forall i :: 0 <= i < |s| ==> p(s[i])
    ensures Filter(s, p) == s
  {
    if s != [] {
      FilterAll(s[1..], p);
      assert [s[0]] + s[1..] == s;
    }
  }

  /** Summing a whole listing sums every stored row. */
  lemma ListingSum<T>(m: map<int, T>, lo: int, hi: int, f: T -> int)
    requires forall k :: k in m ==> lo <= k < hi
    ensures SumOf(ValuesFrom(m, lo, hi), f) == SumOver(m, m.Keys, f)
  {
    var every := (x: T) => true;
    var s := ValuesFrom(m, lo, hi);
    FilterAll(s, every);
    FilterSum(m, lo, hi, every, f);
    assert KeysWhere(m, lo, hi, every) == m.Keys;
  }

  /** Projecting back what a `map` wrapped gives the original array. */
  lemma MapUnwrap<T, U>(s: seq<T>, f: T -> U, g: U -> T)
    requires forall i :: 0 <= i < |s| ==> g(f(s[i])) == s[i]
    ensures Map(Map(s, f), g) == s
  {
  }

  /** `s.find(v => key(v) === x)`: the element listed under key `x`. */
  function Lookup<T>(s: seq<T>, key: T -> int, x: int): (r: Option<T>)
    ensures r.Some? ==> r.value in s && key(r.value) == x
  {
    Find(s, (v: T) => key(v) == x)
  }

  /** Filtering with two predicates that agree on every element gives the
      same result. */
  lemma {:induction false} FilterAgree<T>(s: seq<T>, p: T -> bool, q: T -> bool)
    requires forall i :: 0 <= i < |s| ==> p(s[i]) == q(s[i])
    ensures Filter(s, p) == Filter(s, q)
  {
    if s != [] {
      FilterAgree(s[1..], p, q);
    }
  }

  /** When `s` lists the rows of `m` that satisfy `p` and every row is
      stored under its own key, the keys of `s` (`s.map(key)`) are exactly
      the keys of those rows. */
  lemma ListedKeys<T>(s: seq<T>, m: map<int, T>, p: T -> bool, key: T -> int, x: int)
    requires ListsWhere(s, m, p, key)
    requires forall k :: k in m ==> key(m[k]) == k
    ensures x in Map(s, key) <==> x in m && p(m[x])
  {
    var ks := Map(s, key);
    if x in ks {
      var i :| 0 <= i < |ks| && ks[i] == x;
    }
    if x in m && p(m[x]) {
      var i :| 0 <= i < |s| && s[i] == m[x];
      assert ks[i] == x;
    }
  }

  /** Under the same conditions, looking a key of such a row up in `s`
      finds the row stored under it. */
  lemma ListedLookup<T>(s: seq<T>, m: map<int, T>, p: T -> bool, key: T -> int, x: int)
    requires ListsWhere(s, m, p, key)
    requires forall k :: k in m ==> key(m[k]) == k
    requires x in m && p(m[x])
    ensures Lookup(s, key, x) == Some(m[x])
  {
    var i :| 0 <= i < |s| && s[i] == m[x];
    assert key(s[i]) == x;
    var r := Lookup(s, key, x);
    var j :| 0 <= j < |s| && s[j] == r.value;
  }

  /** The keys of the rows of `m` that satisfy `p`: `KeysWhere` without
      the key range, for stating a result over the whole table once the
      store invariant has put every key in range (`KeysWhereAll`). */
  ghost function KeysWith<T>(m: map<int, T>, p: T -> bool): set<int>
  {
    set k | k in m && p(m[k])
  }

  /** For a table whose keys all lie in `[lo, hi)`, the range can be
      dropped. */
  lemma KeysWhereAll<T>(m: map<int, T>, lo: int, hi: int, p: T -> bool)
    requires forall k :: k in m ==> lo <= k < hi
    ensures KeysWhere(m, lo, hi, p) == KeysWith(m, p)
  {
  }

  /** Replacing one stored row changes a sum over keys by the change in
      that row's term, when its key is summed. */
  lemma {:induction false} SumOverUpdate<T>(m: map<int, T>, keys: set<int>, f: T -> int, k: int, v: T)
    requires keys <= m.Keys
    requires k in m
    ensures SumOver(m[k := v], keys, f) == SumOver(m, keys, f) + (if k in keys then f(v) - f(m[k]) else 0)
    decreases keys
  {
    if exists j :: j in keys {
      var j := MinOf(keys);
      SumOverUpdate(m, keys - {j}, f, k, v);
    }
  }

  /** `s` and `t` have the same length and agree on `f` position by
      position. */
  ghost predicate AgreeOn<T, U>(s: seq<T>, t: seq<T>, f: T -> U)
  {
    |s| == |t| && forall i :: 0 <= i < |s| ==> f(s[i]) == f(t[i])
  }

  lemma AgreeOnCons<T, U>(x: T, s: seq<T>, y: T, t: seq<T>, f: T -> U)
    requires f(x) == f(y) && AgreeOn(s, t, f)
    ensures AgreeOn([x] + s, [y] + t, f)
  {
    forall i | 0 <= i < |[x] + s|
      ensures f(([x] + s)[i]) == f(([y] + t)[i])
    {
      if i > 0 {
        assert ([x] + s)[i] == s[i - 1] && ([y] + t)[i] == t[i - 1];
      }
    }
  }

  /** Two tables with the same keys, whose rows agree on `p` and on `f`
      key by key, give filtered listings that agree on `f`. */
  lemma {:induction false} ListingsAgree<T, U>(a: map<int, T>, b: map<int, T>, lo: int, hi: int, p: T -> bool, f: T -> U)
    requires a.Keys == b.Keys
    requires forall k :: k in a ==> p(a[k]) == p(b[k]) && f(a[k]) == f(b[k])
    ensures AgreeOn(Filter(ValuesFrom(a, lo, hi), p), Filter(ValuesFrom(b, lo, hi), p), f)
    decreases hi - lo
  {
    if lo < hi {
      ValuesFromStep(a, lo, hi);
      ValuesFromStep(b, lo, hi);
      ListingsAgree(a, b, lo + 1, hi, p, f);
      var restA := ValuesFrom(a, lo + 1, hi);
      var restB := ValuesFrom(b, lo + 1, hi);
      if lo in a {
        FilterCons(a[lo], restA, p);
        FilterCons(b[lo], restB, p);
        if p(a[lo]) {
          AgreeOnCons(a[lo], Filter(restA, p), b[lo], Filter(restB, p), f);
        }
      }
    }
  }
}
