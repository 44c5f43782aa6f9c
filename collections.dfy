/**
 * The container behaviour the scripts lean on: a dict filled key by key
 * (the last assignment to a key wins, the key keeps the place where it
 * was first inserted), counting, and `range(0, n, size)` slicing into
 * batches.
 */
module Collections {
  import opened Wrappers

  /** The set of keys that occur in a list of pairs. */
  function KeysOf<K, V>(pairs: seq<(K, V)>): set<K> {
    set i | 0 <= i < |pairs| :: pairs[i].0
  }

  /** The dict `d` left by `for k, v in pairs: d[k] = v` starting from `{}`. */
  function LastMap<K, V>(pairs: seq<(K, V)>): (m: map<K, V>)
    ensures m.Keys == KeysOf(pairs)
  {
    if pairs == [] then map[]
    else
      var init := pairs[..|pairs| - 1];
      assert KeysOf(pairs) == KeysOf(init) + {pairs[|pairs| - 1].0} by {
        forall k | k in KeysOf(pairs) ensures k in KeysOf(init) + {pairs[|pairs| - 1].0} {
          var i :| 0 <= i < |pairs| && pairs[i].0 == k;
          if i < |pairs| - 1 { assert init[i].0 == k; }
        }
        forall k | k in KeysOf(init) ensures k in KeysOf(pairs) {
          var i :| 0 <= i < |init| && init[i].0 == k;
          assert pairs[i].0 == k;
        }
      }
      LastMap(init)[pairs[|pairs| - 1].0 := pairs[|pairs| - 1].1]
  }

  /** Last write wins: the value stored under a key is the one of the last pair with that key. */
  lemma {:induction false} LastMapValue<K, V>(pairs: seq<(K, V)>, i: nat)
    requires i < |pairs|
    requires forall j :: i < j < |pairs| ==> pairs[j].0 != pairs[i].0
    ensures pairs[i].0 in LastMap(pairs) && LastMap(pairs)[pairs[i].0] == pairs[i].1
  {
    if i < |pairs| - 1 {
      var init := pairs[..|pairs| - 1];
      assert forall j :: i < j < |init| ==> init[j].0 != init[i].0;
      LastMapValue(init, i);
    }
  }

  /** Every value stored comes from a pair with that key. */
  lemma {:induction false} LastMapFrom<K, V>(pairs: seq<(K, V)>, x: K)
    requires x in LastMap(pairs)
    ensures exists i :: 0 <= i < |pairs| && pairs[i] == (x, LastMap(pairs)[x])
  {
    var init := pairs[..|pairs| - 1];
    if pairs[|pairs| - 1].0 != x {
      LastMapFrom(init, x);
      var i :| 0 <= i < |init| && init[i] == (x, LastMap(init)[x]);
      assert pairs[i] == init[i];
    }
  }

  /** A key whose every assignment stores the same value holds that value. */
  lemma {:induction false} LastMapUniform<K, V>(pairs: seq<(K, V)>, x: K, v: V)
    requires x in LastMap(pairs)
    requires forall i :: 0 <= i < |pairs| && pairs[i].0 == x ==> pairs[i].1 == v
    ensures LastMap(pairs)[x] == v
  {
    LastMapFrom(pairs, x);
  }

  /**
   * Pairs stored after others that never name `x`: the value under `x` is
   * the one the later pairs all give it.
   */
  lemma {:induction false} LastMapOfTwo<K, V>(first: seq<(K, V)>, second: seq<(K, V)>, x: K, v: V, j: nat)
    requires forall i :: 0 <= i < |first| ==> first[i].0 != x
    requires j < |second| && second[j].0 == x
    requires forall i :: 0 <= i < |second| && second[i].0 == x ==> second[i].1 == v
    ensures x in LastMap(first + second) && LastMap(first + second)[x] == v
  {
    var pairs := first + second;
    assert pairs[|first| + j] == second[j];
    assert x in KeysOf(pairs);
    forall t | 0 <= t < |pairs| && pairs[t].0 == x ensures pairs[t].1 == v {
      if t >= |first| {
        assert pairs[t] == second[t - |first|];
      }
    }
    LastMapUniform(pairs, x, v);
  }

  /**
   * Pairs followed by others that never name `x`: the value under `x` is
   * the one the earlier pairs all give it.
   */
  lemma {:induction false} LastMapOfFirst<K, V>(first: seq<(K, V)>, second: seq<(K, V)>, x: K, v: V, j: nat)
    requires j < |first| && first[j].0 == x
    requires forall i :: 0 <= i < |first| && first[i].0 == x ==> first[i].1 == v
    requires forall i :: 0 <= i < |second| ==> second[i].0 != x
    ensures x in LastMap(first + second) && LastMap(first + second)[x] == v
  {
    var pairs := first + second;
    assert pairs[j] == first[j];
    assert x in KeysOf(pairs);
    forall t | 0 <= t < |pairs| && pairs[t].0 == x ensures pairs[t].1 == v {
      if t < |first| {
        assert pairs[t] == first[t];
      }
    }
    LastMapUniform(pairs, x, v);
  }

  /** Storing a pair: the dict left by one more assignment. */
  lemma {:induction false} LastMapSnoc<K, V>(pairs: seq<(K, V)>, p: (K, V))
    ensures LastMap(pairs + [p]) == LastMap(pairs)[p.0 := p.1]
  {
    assert (pairs + [p])[..|pairs|] == pairs;
  }

  /** Seeing one more key: it is appended exactly when it is new. */
  lemma {:induction false} DedupSnoc<K(!new)>(s: seq<K>, x: K)
    ensures Dedup(s + [x]) == if x in s then Dedup(s) else Dedup(s) + [x]
  {
    assert (s + [x])[..|s|] == s;
  }

  /** The keys of a dict in insertion order: each key at the place of its first occurrence. */
  function Dedup<K(==,!new)>(s: seq<K>): (r: seq<K>)
    ensures forall x :: x in r <==> x in s
    ensures forall i, j :: 0 <= i < j < |r| ==> r[i] != r[j]
  {
    if s == [] then []
    else
      var init := s[..|s| - 1];
      assert forall x :: x in s <==> x in init || x == s[|s| - 1] by {
        assert s == init + [s[|s| - 1]];
      }
      var p := Dedup(init);
      if s[|s| - 1] in init then p else p + [s[|s| - 1]]
  }

  /** The index of the first occurrence of `x` in `s`. */
  function FirstIndex<K(==)>(s: seq<K>, x: K): (i: nat)
    requires x in s
    ensures i < |s| && s[i] == x && forall j :: 0 <= j < i ==> s[j] != x
  {
    if s[0] == x then 0 else FirstIndex(s[1..], x) + 1
  }

  /** A first occurrence stays a first occurrence when the sequence grows at its end. */
  lemma {:induction false} FirstIndexPrefix<K>(s: seq<K>, n: nat, x: K)
    requires n <= |s| && x in s[..n]
    ensures FirstIndex(s[..n], x) == FirstIndex(s, x)
  {
    var i := FirstIndex(s[..n], x);
    var j := FirstIndex(s, x);
    assert forall k :: 0 <= k < n ==> s[..n][k] == s[k];
  }

  /** Dedup keeps the order of first occurrences. */
  lemma {:induction false} DedupFirstOccurrenceOrder<K(!new)>(s: seq<K>, i: nat, j: nat)
    requires i < j < |Dedup(s)|
    ensures FirstIndex(s, Dedup(s)[i]) < FirstIndex(s, Dedup(s)[j])
  {
    var init := s[..|s| - 1];
    var p := Dedup(init);
    var r := Dedup(s);
    assert r == if s[|s| - 1] in init then p else p + [s[|s| - 1]];
    assert r[i] == p[i] && p[i] in p;
    FirstIndexKept(s, p[i]);
    if j < |p| {
      assert r[j] == p[j] && p[j] in p;
      DedupFirstOccurrenceOrder(init, i, j);
      FirstIndexKept(s, p[j]);
    } else {
      assert r[j] == s[|s| - 1];
      FirstIndexOfLast(s);
    }
  }

  /** An element seen before the end first occurs where it first occurs in that prefix. */
  lemma {:induction false} FirstIndexKept<K>(s: seq<K>, x: K)
    requires s != [] && x in s[..|s| - 1]
    ensures FirstIndex(s, x) == FirstIndex(s[..|s| - 1], x) < |s| - 1
  {
    FirstIndexPrefix(s, |s| - 1, x);
  }

  /** An element not seen before the end first occurs at the end. */
  lemma {:induction false} FirstIndexOfLast<K>(s: seq<K>)
    requires s != [] && s[|s| - 1] !in s[..|s| - 1]
    ensures FirstIndex(s, s[|s| - 1]) == |s| - 1
  {
  }

  /** One entry per distinct key. */
  lemma {:induction false} DedupLength<K(!new)>(s: seq<K>)
    ensures |Dedup(s)| == |set x | x in s|
  {
    if s != [] {
      var init := s[..|s| - 1];
      DedupLength(init);
      var a := set x | x in init;
      var b := set x | x in s;
      assert s == init + [s[|s| - 1]];
      assert b == a + {s[|s| - 1]};
      if s[|s| - 1] !in init {
        assert s[|s| - 1] !in a;
      } else {
        assert b == a;
      }
    }
  }

  /** A list whose elements are pairwise different has as many elements as its set. */
  lemma {:induction false} DistinctCardinality<K(!new)>(s: seq<K>)
    ensures (forall i, j :: 0 <= i < j < |s| ==> s[i] != s[j]) <==> |set x | x in s| == |s|
  {
    DedupLength(s);
    DedupIdentity(s);
  }

  /** Dedup leaves a repetition-free list unchanged and shortens any other. */
  lemma {:induction false} DedupIdentity<K(!new)>(s: seq<K>)
    ensures (forall i, j :: 0 <= i < j < |s| ==> s[i] != s[j]) ==> Dedup(s) == s
    ensures !(forall i, j :: 0 <= i < j < |s| ==> s[i] != s[j]) ==> |Dedup(s)| < |s|
    ensures |Dedup(s)| <= |s|
  {
    if s != [] {
      var init := s[..|s| - 1];
      DedupIdentity(init);
      var last := s[|s| - 1];
      if forall i, j :: 0 <= i < j < |s| ==> s[i] != s[j] {
        assert last !in init;
        assert s == init + [last];
      } else {
        var i, j :| 0 <= i < j < |s| && s[i] == s[j];
        if j == |s| - 1 {
          assert init[i] == last;
        } else {
          assert init[i] == init[j];
        }
      }
    }
  }

  /** The position of the first element `p` holds of. */
  function FirstWhere<T>(s: seq<T>, p: T -> bool): (r: Option<nat>)
    ensures r.Some? ==> r.value < |s| && p(s[r.value])
    ensures r.Some? ==> forall j :: 0 <= j < r.value ==> !p(s[j])
    ensures r.None? <==> forall j :: 0 <= j < |s| ==> !p(s[j])
  {
    if s == [] then None
    else if p(s[0]) then Some(0)
    else
      var r := FirstWhere(s[1..], p);
      assert forall j :: 0 < j < |s| ==> s[j] == s[1..][j - 1];
      if r.None? then None else Some(r.value + 1)
  }

  /** The values a loop appends, one per element for which `f` yields one, in order. */
  function Collected<T, U>(s: seq<T>, f: T -> Option<U>): (r: seq<U>)
    ensures |r| <= |s|
  {
    if s == [] then []
    else
      match f(s[|s| - 1])
      case Some(u) => Collected(s[..|s| - 1], f) + [u]
      case None => Collected(s[..|s| - 1], f)
  }

  /** One more element: its value, if any, is appended. */
  lemma {:induction false} CollectedSnoc<T, U>(s: seq<T>, x: T, f: T -> Option<U>)
    ensures Collected(s + [x], f) == if f(x).Some? then Collected(s, f) + [f(x).value] else Collected(s, f)
  {
    assert (s + [x])[..|s|] == s;
  }

  /** The elements converted one by one. */
  function Map<T, U>(s: seq<T>, g: T -> U): (r: seq<U>)
    ensures |r| == |s| && forall i :: 0 <= i < |s| ==> r[i] == g(s[i])
  {
    seq(|s|, i requires 0 <= i < |s| => g(s[i]))
  }

  lemma {:induction false} MapAppend<T, U>(a: seq<T>, b: seq<T>, g: T -> U)
    ensures Map(a + b, g) == Map(a, g) + Map(b, g)
  {
  }

  /** Collecting from converted elements is collecting with the conversion folded in. */
  lemma {:induction false} CollectedMap<T, U, V>(s: seq<T>, g: T -> U, f: U -> Option<V>, h: T -> Option<V>)
    requires forall x :: h(x) == f(g(x))
    ensures Collected(Map(s, g), f) == Collected(s, h)
  {
    if s != [] {
      var init := s[..|s| - 1];
      CollectedMap(init, g, f, h);
      assert Map(s, g)[..|s| - 1] == Map(init, g);
    }
  }

  /** A value is collected exactly when some element yields it. */
  lemma {:induction false} CollectedFrom<T, U>(s: seq<T>, f: T -> Option<U>)
    ensures forall u :: u in Collected(s, f) <==> exists i :: 0 <= i < |s| && f(s[i]) == Some(u)
  {
    if s != [] {
      var init := s[..|s| - 1];
      CollectedFrom(init, f);
      assert forall i :: 0 <= i < |init| ==> init[i] == s[i];
      assert s == init + [s[|s| - 1]];
    }
  }

  /** The values of a prefix are a prefix of the values; element `i`'s value follows those before it. */
  lemma {:induction false} CollectedPrefix<T, U>(s: seq<T>, f: T -> Option<U>, i: nat)
    requires i <= |s|
    ensures |Collected(s[..i], f)| <= |Collected(s, f)|
    ensures Collected(s, f)[..|Collected(s[..i], f)|] == Collected(s[..i], f)
    ensures i < |s| && f(s[i]).Some? ==>
      |Collected(s[..i], f)| < |Collected(s, f)| && Collected(s, f)[|Collected(s[..i], f)|] == f(s[i]).value
    decreases |s| - i
  {
    if i == |s| {
      assert s[..i] == s;
    } else {
      CollectedPrefix(s, f, i + 1);
      var all, longer, shorter := Collected(s, f), Collected(s[..i + 1], f), Collected(s[..i], f);
      CollectedSnoc(s[..i], s[i], f);
      assert s[..i] + [s[i]] == s[..i + 1];
      assert longer == if f(s[i]).Some? then shorter + [f(s[i]).value] else shorter;
      assert longer[..|shorter|] == shorter;
      assert all[..|shorter|] == longer[..|shorter|];
    }
  }

  /** A value of element `j` lands after the values of the first `j` elements. */
  lemma {:induction false} CollectedAfter<T, U>(s: seq<T>, f: T -> Option<U>, k: nat)
    requires k < |Collected(s, f)|
    ensures exists j :: 0 <= j < |s| && f(s[j]) == Some(Collected(s, f)[k]) && |Collected(s[..j], f)| == k
  {
    var init := s[..|s| - 1];
    CollectedPrefix(s, f, |s| - 1);
    if k < |Collected(init, f)| {
      CollectedAfter(init, f, k);
      var j :| 0 <= j < |init| && f(init[j]) == Some(Collected(init, f)[k]) && |Collected(init[..j], f)| == k;
      assert init[..j] == s[..j];
    } else {
      assert s[..|s| - 1] == init;
    }
  }

  /**
   * A dict filled from collected pairs holds, under the key of element
   * `i`, element `i`'s value when no later element yields that key.
   */
  lemma {:induction false} LastMapCollected<T, K, V>(s: seq<T>, f: T -> Option<(K, V)>, i: nat)
    requires i < |s| && f(s[i]).Some?
    requires forall j :: i < j < |s| && f(s[j]).Some? ==> f(s[j]).value.0 != f(s[i]).value.0
    ensures f(s[i]).value.0 in LastMap(Collected(s, f))
    ensures LastMap(Collected(s, f))[f(s[i]).value.0] == f(s[i]).value.1
  {
    var p := Collected(s, f);
    var n := |Collected(s[..i], f)|;
    CollectedPrefix(s, f, i);
    forall k | n < k < |p| ensures p[k].0 != f(s[i]).value.0 {
      CollectedLaterKey(s, f, i, k);
    }
    LastMapValue(p, n);
  }

  /** A value collected after element `i`'s comes from a later element. */
  lemma {:induction false} CollectedLaterKey<T, K, V>(s: seq<T>, f: T -> Option<(K, V)>, i: nat, k: nat)
    requires i < |s| && f(s[i]).Some?
    requires forall j :: i < j < |s| && f(s[j]).Some? ==> f(s[j]).value.0 != f(s[i]).value.0
    requires |Collected(s[..i], f)| < k < |Collected(s, f)|
    ensures Collected(s, f)[k].0 != f(s[i]).value.0
  {
    CollectedAfter(s, f, k);
    var j :| 0 <= j < |s| && f(s[j]) == Some(Collected(s, f)[k]) && |Collected(s[..j], f)| == k;
    if j <= i {
      PrefixMonotone(s, f, j, i);
    }
  }

  /** The keys of a dict filled from collected pairs are the keys some element yields. */
  lemma {:induction false} LastMapCollectedKeys<T, K, V>(s: seq<T>, f: T -> Option<(K, V)>, k: K)
    ensures k in LastMap(Collected(s, f)) <==> exists i :: 0 <= i < |s| && f(s[i]).Some? && f(s[i]).value.0 == k
  {
    var p := Collected(s, f);
    if k in KeysOf(p) {
      var j :| 0 <= j < |p| && p[j].0 == k;
      CollectedAfter(s, f, j);
    }
    if i :| 0 <= i < |s| && f(s[i]).Some? && f(s[i]).value.0 == k {
      CollectedPrefix(s, f, i);
      assert p[|Collected(s[..i], f)|].0 == k;
    }
  }

  /** The same, for pairs whose key is what `key` reads from the element. */
  lemma {:induction false} LastMapKeysBy<T, K, V>(s: seq<T>, f: T -> Option<(K, V)>, key: T -> Option<K>, k: K)
    requires forall x :: f(x).Some? <==> key(x).Some?
    requires forall x :: f(x).Some? ==> f(x).value.0 == key(x).value
    ensures k in LastMap(Collected(s, f)) <==> exists i :: 0 <= i < |s| && key(s[i]) == Some(k)
  {
    LastMapCollectedKeys(s, f, k);
    assert forall i :: 0 <= i < |s| ==> (f(s[i]).Some? && f(s[i]).value.0 == k <==> key(s[i]) == Some(k));
  }

  /** Longer prefixes collect at least as many values. */
  lemma {:induction false} PrefixMonotone<T, U>(s: seq<T>, f: T -> Option<U>, a: nat, b: nat)
    requires a <= b <= |s|
    ensures |Collected(s[..a], f)| <= |Collected(s[..b], f)|
  {
    assert s[..b][..a] == s[..a];
    CollectedPrefix(s[..b], f, a);
  }

  /** The values of a list as a set, as `set(s)` builds it. */
  function SetOf<T>(s: seq<T>): set<T> {
    set x | x in s
  }

  /** Appending an element adds it to the set of elements. */
  lemma {:induction false} SetOfSnoc<T>(s: seq<T>, x: T)
    ensures SetOf(s + [x]) == SetOf(s) + {x}
  {
    assert forall y :: y in s + [x] <==> y in s || y == x;
  }

  /** The number of elements of `s` that `p` holds of. */
  function CountIf<T>(s: seq<T>, p: T -> bool): (n: nat)
    ensures n <= |s|
  {
    if s == [] then 0
    else CountIf(s[..|s| - 1], p) + (if p(s[|s| - 1]) then 1 else 0)
  }

  /** Counting over a concatenation adds up. */
  lemma {:induction false} CountIfAppend<T>(a: seq<T>, b: seq<T>, p: T -> bool)
    ensures CountIf(a + b, p) == CountIf(a, p) + CountIf(b, p)
    decreases |b|
  {
    if b != [] {
      var b' := b[..|b| - 1];
      assert (a + b)[..|a + b| - 1] == a + b';
      CountIfAppend(a, b', p);
    } else {
      assert a + b == a;
    }
  }

  /** Nothing is counted exactly when `p` holds of no element; everything exactly when it holds of all. */
  lemma {:induction false} CountIfExtremes<T>(s: seq<T>, p: T -> bool)
    ensures CountIf(s, p) == 0 <==> forall i :: 0 <= i < |s| ==> !p(s[i])
    ensures CountIf(s, p) == |s| <==> forall i :: 0 <= i < |s| ==> p(s[i])
  {
    if s != [] {
      var init := s[..|s| - 1];
      CountIfExtremes(init, p);
      assert forall i :: 0 <= i < |init| ==> init[i] == s[i];
    }
  }

  /** The slices `s[i:i + size]` for `i in range(0, len(s), size)`. */
  function Batches<T>(s: seq<T>, size: nat): seq<seq<T>>
    requires size > 0
    decreases |s|
  {
    if s == [] then []
    else if |s| <= size then [s]
    else [s[..size]] + Batches(s[size..], size)
  }

  /** The concatenation of a list of batches. */
  function Flatten<T>(b: seq<seq<T>>): seq<T> {
    if b == [] then [] else b[0] + Flatten(b[1..])
  }

  lemma {:induction false} FlattenAppend<T>(a: seq<seq<T>>, b: seq<seq<T>>)
    ensures Flatten(a + b) == Flatten(a) + Flatten(b)
  {
    if a != [] {
      assert (a + b)[1..] == a[1..] + b;
      FlattenAppend(a[1..], b);
    } else {
      assert a + b == b;
    }
  }

  /** Blocks of one length `n` put together are `n` per block long. */
  lemma {:induction false} FlattenLength<T>(b: seq<seq<T>>, n: nat)
    requires forall i :: 0 <= i < |b| ==> |b[i]| == n
    ensures |Flatten(b)| == n * |b|
  {
    if b != [] {
      FlattenLength(b[1..], n);
      assert n * |b| == n + n * |b[1..]|;
    }
  }

  /** Blocks of one length `n` put together: block `k` sits at `[n * k, n * k + n)`. */
  lemma {:induction false} FlattenAt<T>(b: seq<seq<T>>, n: nat, k: nat)
    requires forall i :: 0 <= i < |b| ==> |b[i]| == n
    requires k < |b|
    ensures n * k + n <= |Flatten(b)| && Flatten(b)[n * k..n * k + n] == b[k]
  {
    FlattenLength(b[1..], n);
    var rest := Flatten(b[1..]);
    assert Flatten(b) == b[0] + rest;
    if k > 0 {
      FlattenAt(b[1..], n, k - 1);
      assert n * k == n + n * (k - 1);
      assert Flatten(b)[n * k..n * k + n] == rest[n * (k - 1)..n * (k - 1) + n];
    }
  }

  /**
   * A document made of a head, a block per element, a middle and a second
   * block per element, every block `n` long: where the k-th blocks sit.
   */
  lemma {:induction false} TwoSectionsAt<T, U>(head: seq<U>, middle: seq<U>, s: seq<T>, f: T -> seq<U>, g: T -> seq<U>, n: nat, k: nat)
    requires forall i :: 0 <= i < |s| ==> |f(s[i])| == n && |g(s[i])| == n
    requires k < |s|
    ensures var d := head + Flatten(Map(s, f)) + middle + Flatten(Map(s, g));
      n * k + n <= n * |s|
      && |d| == |head| + |middle| + n * |s| + n * |s|
      && d[|head| + n * k..|head| + n * k + n] == f(s[k])
      && d[|head| + n * |s| + |middle| + n * k..|head| + n * |s| + |middle| + n * k + n] == g(s[k])
  {
    var first := Flatten(Map(s, f));
    var second := Flatten(Map(s, g));
    FlattenLength(Map(s, f), n);
    FlattenLength(Map(s, g), n);
    FlattenAt(Map(s, f), n, k);
    FlattenAt(Map(s, g), n, k);
    SliceInside(head, first, middle + second, n * k, n);
    assert head + first + middle + second == head + first + (middle + second);
    SliceInside(head + first + middle, second, [], n * k, n);
    assert head + first + middle + second + [] == head + first + middle + second;
  }

  /** A slice of a sequence placed between two others is read at an offset of the first one's length. */
  lemma {:induction false} SliceInside<T>(pre: seq<T>, x: seq<T>, post: seq<T>, i: nat, n: nat)
    requires i + n <= |x|
    ensures (pre + x + post)[|pre| + i..|pre| + i + n] == x[i..i + n]
  {
    var d := pre + x + post;
    assert forall j :: |pre| + i <= j < |pre| + i + n ==> d[j] == x[j - |pre|];
  }

  /** Extending the mapped prefix by one element appends that element's block. */
  lemma {:induction false} FlattenMapSnoc<T, U>(s: seq<T>, i: nat, g: T -> seq<U>)
    requires i < |s|
    ensures Flatten(Map(s[..i + 1], g)) == Flatten(Map(s[..i], g)) + g(s[i])
  {
    assert Map(s[..i + 1], g) == Map(s[..i], g) + [g(s[i])];
    FlattenAppend(Map(s[..i], g), [g(s[i])]);
    assert Flatten([g(s[i])]) == g(s[i]) + [];
  }

  /** The batches, put back together in order, are the input: no record lost, repeated or moved. */
  lemma {:induction false} BatchesFlatten<T>(s: seq<T>, size: nat)
    requires size > 0
    ensures Flatten(Batches(s, size)) == s
    decreases |s|
  {
    if |s| > size {
      BatchesFlatten(s[size..], size);
      assert s[..size] + s[size..] == s;
    }
  }

  /** Every batch holds at least one and at most `size` records. */
  lemma {:induction false} BatchesSizes<T>(s: seq<T>, size: nat)
    requires size > 0
    ensures forall k :: 0 <= k < |Batches(s, size)| ==> 0 < |Batches(s, size)[k]| <= size
    decreases |s|
  {
    if |s| > size {
      BatchesSizes(s[size..], size);
      assert forall k :: 0 < k < |Batches(s, size)| ==> Batches(s, size)[k] == Batches(s[size..], size)[k - 1];
    }
  }

  /** There are `ceil(len(s) / size)` batches. */
  lemma {:induction false} BatchesCount<T>(s: seq<T>, size: nat)
    requires size > 0
    ensures |Batches(s, size)| == (|s| + size - 1) / size
    decreases |s|
  {
    if s == [] {
      DivUnique(size - 1, size, 0, size - 1);
    } else if |s| <= size {
      DivUnique(|s| + size - 1, size, 1, |s| - 1);
    } else {
      BatchesCount(s[size..], size);
      DivPlusOne(|s| + size - 1, size);
    }
  }

  lemma {:induction false} DivPlusOne(a: nat, size: nat)
    requires size > 0 && a >= size
    ensures (a - size) / size + 1 == a / size
  {
    var q := (a - size) / size;
    var r := (a - size) % size;
    assert a - size == q * size + r;
    assert a == (q + 1) * size + r;
    DivUnique(a, size, q + 1, r);
  }

  /** Integer division is determined by a quotient and a remainder in range. */
  lemma {:induction false} DivUnique(a: int, size: int, q: int, r: int)
    requires size > 0 && a == q * size + r && 0 <= r < size
    ensures a / size == q
  {
    var d := q - a / size;
    assert a == (a / size) * size + a % size;
    assert d * size == a % size - r;
  }

  lemma {:induction false} MulStep(k: nat, size: nat)
    requires k > 0
    ensures (k - 1) * size + size == k * size && k * size + size == (k + 1) * size
  {
  }

  /** Batch `k` covers the positions `[k * size, min((k + 1) * size, len(s)))`. */
  lemma {:induction false} BatchAt<T>(s: seq<T>, size: nat, k: nat)
    requires size > 0 && k < |Batches(s, size)|
    ensures k * size < |s|
    ensures Batches(s, size)[k] == s[k * size .. if (k + 1) * size < |s| then (k + 1) * size else |s|]
    decreases |s|
  {
    if k > 0 {
      BatchesTail(s, size, k);
      BatchAt(s[size..], size, k - 1);
      MulStep(k, size);
      WindowOfRest(s, size, (k - 1) * size, k * size, (k + 1) * size);
    }
  }

  /** Past the first batch come the batches of the rest. */
  lemma {:induction false} BatchesTail<T>(s: seq<T>, size: nat, k: nat)
    requires size > 0 && 0 < k < |Batches(s, size)|
    ensures |s| > size && k - 1 < |Batches(s[size..], size)|
    ensures Batches(s, size)[k] == Batches(s[size..], size)[k - 1]
  {
  }

  /** A window of what follows the first `d` elements is a window of the whole, `d` further on. */
  lemma {:induction false} WindowOfRest<T>(s: seq<T>, d: nat, a: nat, b: nat, c: nat)
    requires d <= |s| && a < |s| - d && b == a + d && c == b + d
    ensures b < |s|
    ensures s[d..][a..if b < |s| - d then b else |s| - d] == s[b..if c < |s| then c else |s|]
  {
  }

  /** One more batch sent: the batches sent so far grow by the next slice, which is the next batch. */
  lemma {:induction false} SendNext<T>(s: seq<T>, i: nat, size: nat, sent: seq<seq<T>>)
    requires size > 0 && i < |s|
    requires Batches(s, size) == sent + Batches(s[i..], size)
    ensures var j := if i + size < |s| then i + size else |s|;
      && Batches(s, size) == (sent + [s[i..j]]) + Batches(s[j..], size)
      && |sent| < |Batches(s, size)| && Batches(s, size)[..|sent| + 1] == sent + [s[i..j]]
  {
    var j := if i + size < |s| then i + size else |s|;
    BatchesStep(s, i, size);
    assert sent + Batches(s[i..], size) == (sent + [s[i..j]]) + Batches(s[j..], size);
    assert Batches(s, size)[..|sent| + 1] == sent + [s[i..j]];
  }

  /** Once the whole input is consumed, every batch has been sent. */
  lemma {:induction false} SentAll<T>(s: seq<T>, size: nat, sent: seq<seq<T>>)
    requires size > 0
    requires Batches(s, size) == sent + Batches(s[|s|..], size)
    ensures sent == Batches(s, size)
  {
    assert s[|s|..] == [];
    assert sent + [] == sent;
  }

  /** The batching loop's step: the first batch, then the batches of the rest. */
  lemma {:induction false} BatchesStep<T>(s: seq<T>, i: nat, size: nat)
    requires size > 0 && i < |s|
    ensures Batches(s[i..], size)
      == [s[i .. if i + size < |s| then i + size else |s|]]
         + Batches(s[if i + size < |s| then i + size else |s| ..], size)
  {
    if i + size < |s| {
      assert s[i..][..size] == s[i..i + size];
      assert s[i..][size..] == s[i + size..];
    } else {
      assert s[i..] == s[i..|s|];
      assert s[|s|..] == [];
      assert Batches(s[|s|..], size) == [];
    }
  }
}
