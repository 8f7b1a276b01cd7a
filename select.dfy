/** Selection of paths by substring, the one filtering idiom both core files
    use: `list(filter(lambda x: name in x, paths))`, accumulated over a list
    of names with `+=`. */
module Select {
  import opened Text

  /** `list(filter(lambda x: pattern in x, paths))`. */
  function Matching(paths: seq<string>, pattern: string): (r: seq<string>)
    ensures |r| <= |paths|
    decreases |paths|
  {
    if paths == [] then []
    else Matching(paths[..|paths| - 1], pattern) + Keep(paths[|paths| - 1], pattern)
  }

  /** The filter's verdict on one path: the path itself, or nothing. */
  function Keep(p: string, pattern: string): (r: seq<string>)
    ensures |r| <= 1
  {
    if Contains(p, pattern) then [p] else []
  }

  /** Filtering keeps every matching path, and each as often as it occurs. */
  lemma {:induction false} MatchingCount(paths: seq<string>, pattern: string, p: string)
    ensures multiset(Matching(paths, pattern))[p] == Copies(multiset(paths)[p], p, pattern)
    decreases |paths|
  {
    if paths != [] {
      var init, last := paths[..|paths| - 1], paths[|paths| - 1];
      MatchingCount(init, pattern, p);
      LastSplit(paths);
    }
  }

  /** `k` copies of `p` when `p` contains the pattern, none otherwise. */
  function Copies(k: nat, p: string, pattern: string): nat {
    if Contains(p, pattern) then k else 0
  }

  /** A path is kept exactly when it is in the list and contains the pattern. */
  lemma {:induction false} MatchingMember(paths: seq<string>, pattern: string, p: string)
    ensures p in Matching(paths, pattern) <==> p in paths && Contains(p, pattern)
  {
    MatchingCount(paths, pattern, p);
  }

  /** Filtering preserves order: it distributes over concatenation. */
  lemma {:induction false} MatchingAppend(a: seq<string>, b: seq<string>, pattern: string)
    ensures Matching(a + b, pattern) == Matching(a, pattern) + Matching(b, pattern)
    decreases |b|
  {
    if b == [] {
      assert a + b == a;
    } else {
      var init, last := b[..|b| - 1], b[|b| - 1];
      AppendLast(a, b);
      MatchingAppend(a, init, pattern);
      Assoc(Matching(a, pattern), Matching(init, pattern), Keep(last, pattern));
    }
  }

  /** The in-order concatenation, pattern by pattern, of the paths that
      contain each pattern. */
  function SelectAll(patterns: seq<string>, paths: seq<string>): (r: seq<string>)
    decreases |patterns|
  {
    if patterns == [] then []
    else
      SelectAll(patterns[..|patterns| - 1], paths) + Matching(paths, patterns[|patterns| - 1])
  }

  /** Number of patterns that occur in `p`. */
  function MatchCount(patterns: seq<string>, p: string): nat
    decreases |patterns|
  {
    if patterns == [] then 0
    else MatchCount(patterns[..|patterns| - 1], p) + Copies(1, p, patterns[|patterns| - 1])
  }

  /** A path is selected exactly when it is in the list and contains some
      pattern. */
  lemma {:induction false} SelectAllMember(patterns: seq<string>, paths: seq<string>, p: string)
    ensures p in SelectAll(patterns, paths) <==>
            p in paths && exists i :: 0 <= i < |patterns| && Contains(p, patterns[i])
    decreases |patterns|
  {
    if patterns != [] {
      var init, last := patterns[..|patterns| - 1], patterns[|patterns| - 1];
      SelectAllMember(init, paths, p);
      MatchingMember(paths, last, p);
      LastSplit(patterns);
      SomeContainsLast(init, last, p);
    }
  }

  /** Some pattern of `init + [last]` occurs in `p` exactly when one of
      `init` does or `last` does. */
  lemma {:induction false} SomeContainsLast(init: seq<string>, last: string, p: string)
    ensures (exists i :: 0 <= i < |init + [last]| && Contains(p, (init + [last])[i])) <==>
            (exists i :: 0 <= i < |init| && Contains(p, init[i])) || Contains(p, last)
  {
    var s := init + [last];
    if exists i :: 0 <= i < |s| && Contains(p, s[i]) {
      var i :| 0 <= i < |s| && Contains(p, s[i]);
      if i < |init| {
        assert s[i] == init[i];
      }
    }
    if exists i :: 0 <= i < |init| && Contains(p, init[i]) {
      var i :| 0 <= i < |init| && Contains(p, init[i]);
      assert s[i] == init[i];
    }
    if Contains(p, last) {
      assert s[|init|] == last;
    }
  }

  /** A path is selected once per occurrence in the list and per pattern it
      contains: duplicates arise when several patterns match it. */
  lemma {:induction false} SelectAllCount(patterns: seq<string>, paths: seq<string>, p: string)
    ensures multiset(SelectAll(patterns, paths))[p] == multiset(paths)[p] * MatchCount(patterns, p)
  {
    SelectAllCopies(patterns, paths, p);
    CopiesAllProduct(patterns, p, multiset(paths)[p]);
  }

  /** `k` copies of `p` for each pattern that occurs in it. */
  function CopiesAll(patterns: seq<string>, p: string, k: nat): nat
    decreases |patterns|
  {
    if patterns == [] then 0
    else CopiesAll(patterns[..|patterns| - 1], p, k) + Copies(k, p, patterns[|patterns| - 1])
  }

  lemma {:induction false} SelectAllCopies(patterns: seq<string>, paths: seq<string>, p: string)
    ensures multiset(SelectAll(patterns, paths))[p] == CopiesAll(patterns, p, multiset(paths)[p])
    decreases |patterns|
  {
    if patterns != [] {
      var init, last := patterns[..|patterns| - 1], patterns[|patterns| - 1];
      SelectAllCopies(init, paths, p);
      MatchingCount(paths, last, p);
    }
  }

  lemma {:induction false} CopiesAllProduct(patterns: seq<string>, p: string, k: nat)
    ensures CopiesAll(patterns, p, k) == k * MatchCount(patterns, p)
    decreases |patterns|
  {
    if patterns != [] {
      var init, last := patterns[..|patterns| - 1], patterns[|patterns| - 1];
      CopiesAllProduct(init, p, k);
      MulCopies(k, MatchCount(init, p), p, last);
    }
  }

  /** `k` times one more match is `k` more copies. */
  lemma {:induction false} MulCopies(k: nat, c: nat, p: string, pattern: string)
    ensures k * (c + Copies(1, p, pattern)) == k * c + Copies(k, p, pattern)
  {
  }

  /** Selecting with a list of patterns is selecting with each part in turn. */
  lemma {:induction false} SelectAllAppend(a: seq<string>, b: seq<string>, paths: seq<string>)
    ensures SelectAll(a + b, paths) == SelectAll(a, paths) + SelectAll(b, paths)
    decreases |b|
  {
    if b == [] {
      assert a + b == a;
    } else {
      var init, last := b[..|b| - 1], b[|b| - 1];
      AppendLast(a, b);
      SelectAllAppend(a, init, paths);
      Assoc(SelectAll(a, paths), SelectAll(init, paths), Matching(paths, last));
    }
  }

  /** One pattern selects the paths that contain it, in their order. */
  lemma {:induction false} SelectAllSingle(pattern: string, paths: seq<string>)
    ensures SelectAll([pattern], paths) == Matching(paths, pattern)
  {
    assert [pattern][..0] == [];
  }

  // Sequence facts the proofs above use, kept apart so that each is proved
  // in a small context.

  lemma {:induction false} Assoc<T>(x: seq<T>, y: seq<T>, z: seq<T>)
    ensures (x + y) + z == x + (y + z)
  {
  }

  lemma {:induction false} LastSplit<T>(s: seq<T>)
    requires s != []
    ensures s == s[..|s| - 1] + [s[|s| - 1]]
  {
  }

  lemma {:induction false} AppendLast<T>(a: seq<T>, b: seq<T>)
    requires b != []
    ensures (a + b)[..|a + b| - 1] == a + b[..|b| - 1]
    ensures (a + b)[|a + b| - 1] == b[|b| - 1]
  {
  }
}
