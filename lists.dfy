/** Generic helpers on sequences: the image of a sequence under a function,
    its elements, whether they are distinct, and a dictionary built by
    assigning one entry per element. */
module Lists {
  /** `f` applied to each element, in order. */
  function Each<A, B>(f: A -> B, xs: seq<A>): (r: seq<B>)
    ensures |r| == |xs|
    decreases |xs|
  {
    if xs == [] then [] else Each(f, xs[..|xs| - 1]) + [f(xs[|xs| - 1])]
  }

  /** Element `i` of `Each(f, xs)` is `f(xs[i])`. */
  lemma {:induction false} EachIndex<A, B>(f: A -> B, xs: seq<A>, i: nat)
    requires i < |xs|
    ensures Each(f, xs)[i] == f(xs[i])
    decreases |xs|
  {
    var init := xs[..|xs| - 1];
    if i < |init| {
      EachIndex(f, init, i);
      assert init[i] == xs[i];
    }
  }

  /** One more element adds its image at the end. */
  lemma {:induction false} EachSnoc<A, B>(f: A -> B, xs: seq<A>, i: nat)
    requires i < |xs|
    ensures Each(f, xs[..i + 1]) == Each(f, xs[..i]) + [f(xs[i])]
  {
    assert xs[..i + 1][..i] == xs[..i];
  }

  /** The image of a concatenation is the concatenation of the images. */
  lemma {:induction false} EachAppend<A, B>(f: A -> B, a: seq<A>, b: seq<A>)
    ensures Each(f, a + b) == Each(f, a) + Each(f, b)
    decreases |b|
  {
    if b == [] {
      assert a + b == a;
    } else {
      var init, last := b[..|b| - 1], b[|b| - 1];
      EachAppend(f, a, init);
      var ab := a + b;
      assert ab[..|ab| - 1] == a + init;
      assert ab[|ab| - 1] == last;
      var x, y, z := Each(f, a), Each(f, init), [f(last)];
      calc {
        Each(f, ab);
        Each(f, a + init) + z;
        { EachAppend(f, a, init); }
        (x + y) + z;
        x + (y + z);
        x + Each(f, b);
      }
    }
  }

  /** The images of the elements under `f`, concatenated in order. */
  function Concat<A, B>(f: A -> seq<B>, xs: seq<A>): (r: seq<B>)
    decreases |xs|
  {
    if xs == [] then [] else Concat(f, xs[..|xs| - 1]) + f(xs[|xs| - 1])
  }

  /** A value is in the concatenation exactly when it is in the image of
      some element. */
  lemma {:induction false} ConcatMember<A, B>(f: A -> seq<B>, xs: seq<A>, p: B)
    ensures p in Concat(f, xs) <==> exists i :: 0 <= i < |xs| && p in f(xs[i])
    decreases |xs|
  {
    if xs != [] {
      var init := xs[..|xs| - 1];
      ConcatMember(f, init, p);
      if p in Concat(f, xs) {
        if p in Concat(f, init) {
          var i :| 0 <= i < |init| && p in f(init[i]);
          assert xs[i] == init[i];
        } else {
          assert p in f(xs[|xs| - 1]);
        }
      } else {
        forall i | 0 <= i < |xs| ensures p !in f(xs[i]) {
          if i < |init| {
            assert xs[i] == init[i];
          }
        }
      }
    }
  }

  /** The concatenation of a concatenation is the concatenation of the
      parts. */
  lemma {:induction false} ConcatAppend<A, B>(f: A -> seq<B>, a: seq<A>, b: seq<A>)
    ensures Concat(f, a + b) == Concat(f, a) + Concat(f, b)
    decreases |b|
  {
    if b == [] {
      assert a + b == a;
    } else {
      var init, last := b[..|b| - 1], b[|b| - 1];
      var ab := a + b;
      assert ab[..|ab| - 1] == a + init;
      assert ab[|ab| - 1] == last;
      var x, y, z := Concat(f, a), Concat(f, init), f(last);
      calc {
        Concat(f, ab);
        Concat(f, a + init) + z;
        { ConcatAppend(f, a, init); }
        (x + y) + z;
        x + (y + z);
        x + Concat(f, b);
      }
    }
  }


  /** The elements of a sequence, as a set. */
  function Elements<T>(s: seq<T>): set<T> {
    set x | x in s
  }

  /** No two elements are equal. */
  predicate Distinct<T(==)>(s: seq<T>) {
    forall i, j :: 0 <= i < j < |s| ==> s[i] != s[j]
  }

  /** A prefix of distinct elements is distinct. */
  lemma {:induction false} DistinctPrefix<T>(s: seq<T>, n: nat)
    requires Distinct(s) && n <= |s|
    ensures Distinct(s[..n])
  {
    forall i, j | 0 <= i < j < n ensures s[..n][i] != s[..n][j] {
      assert s[i] != s[j];
    }
  }
  /** The elements of a non-empty sequence are those of all but its last
      element, and that one. */
  lemma {:induction false} ElementsSnoc<T>(s: seq<T>)
    requires s != []
    ensures Elements(s) == Elements(s[..|s| - 1]) + {s[|s| - 1]}
  {
    assert s == s[..|s| - 1] + [s[|s| - 1]];
  }

  /** A non-empty sequence is distinct exactly when all but its last
      element are, and the last is none of them. */
  lemma {:induction false} DistinctSnoc<T>(s: seq<T>)
    requires s != []
    ensures Distinct(s) <==> Distinct(s[..|s| - 1]) && s[|s| - 1] !in Elements(s[..|s| - 1])
  {
    var init, last := s[..|s| - 1], s[|s| - 1];
    if Distinct(s) {
      DistinctPrefix(s, |init|);
      forall i | 0 <= i < |init| ensures init[i] != last {
        assert s[i] != s[|init|];
      }
    }
    if Distinct(init) && last !in Elements(init) {
      forall i, j | 0 <= i < j < |s| ensures s[i] != s[j] {
        if j == |init| {
          assert init[i] in Elements(init);
        } else {
          assert init[i] != init[j];
        }
      }
    }
  }


  /** `m` with, element after element, the entry `key(x)` set to `val(x)`. */
  function Assign<A, K, V>(m: map<K, V>, xs: seq<A>, key: A -> K, val: A -> V): map<K, V>
    decreases |xs|
  {
    if xs == [] then m
    else
      var last := xs[|xs| - 1];
      Assign(m, xs[..|xs| - 1], key, val)[key(last) := val(last)]
  }

  /** The keys after the assignments: the old ones and one per element. */
  lemma {:induction false} AssignKeys<A, K, V>(m: map<K, V>, xs: seq<A>, key: A -> K, val: A -> V)
    ensures Assign(m, xs, key, val).Keys == m.Keys + Elements(Each(key, xs))
    decreases |xs|
  {
    if xs != [] {
      var init := xs[..|xs| - 1];
      AssignKeys(m, init, key, val);
      assert Elements(Each(key, xs)) == Elements(Each(key, init)) + {key(xs[|xs| - 1])};
    }
  }

  /** With keys of their own, every element's entry holds its value. */
  lemma {:induction false} AssignValue<A, K, V>(m: map<K, V>, xs: seq<A>, key: A -> K, val: A -> V, i: nat)
    requires Distinct(Each(key, xs)) && i < |xs|
    ensures key(xs[i]) in Assign(m, xs, key, val) && Assign(m, xs, key, val)[key(xs[i])] == val(xs[i])
    decreases |xs|
  {
    var n := |xs| - 1;
    if i < n {
      var init := xs[..n];
      var keys := Each(key, xs);
      assert keys[..n] == Each(key, init);
      DistinctPrefix(keys, n);
      AssignValue(m, init, key, val, i);
      EachIndex(key, xs, i);
      assert init[i] == xs[i];
      assert keys[i] != keys[n];
    }
  }

  /** An old entry that no element's key names stays as it was. */
  lemma {:induction false} AssignKept<A, K, V>(m: map<K, V>, xs: seq<A>, key: A -> K, val: A -> V, k: K)
    requires k in m && k !in Elements(Each(key, xs))
    ensures k in Assign(m, xs, key, val) && Assign(m, xs, key, val)[k] == m[k]
    decreases |xs|
  {
    if xs != [] {
      var init := xs[..|xs| - 1];
      assert Elements(Each(key, xs)) == Elements(Each(key, init)) + {key(xs[|xs| - 1])};
      AssignKept(m, init, key, val, k);
    }
  }
}
