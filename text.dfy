/** The handful of Python string operations the catalog, the assembler and the
    record formatter are built from: substring search (`in`, `find`),
    `split` on a separator and on whitespace, `os.path` name handling,
    justification and centring as the `format` mini-language does it, and
    decimal and fixed-point number text. Characters are Unicode scalar
    values; the record lines stored by the source are ASCII. */
module Text {
  import opened Wrappers

  // ---------------------------------------------------------------------
  // Substring search
  // ---------------------------------------------------------------------

  /** `sep` occurs in `s` starting at index `j`. */
  predicate OccursAt(s: string, sep: string, j: nat) {
    j + |sep| <= |s| && s[j..j + |sep|] == sep
  }

  /** The first occurrence of `sep` in `s` at index `i` or later. */
  function FindFrom(s: string, sep: string, i: nat): (r: Option<nat>)
    ensures r.Some? ==> i <= r.value && OccursAt(s, sep, r.value)
    ensures r.Some? ==> forall j: nat :: i <= j < r.value ==> !OccursAt(s, sep, j)
    ensures r.None? ==> forall j: nat :: i <= j ==> !OccursAt(s, sep, j)
    decreases |s| - i
  {
    if i + |sep| > |s| then None
    else if s[i..i + |sep|] == sep then Some(i)
    else FindFrom(s, sep, i + 1)
  }

  /** Python's `s.find(sep)`: the index of the first occurrence of `sep`. */
  function Find(s: string, sep: string): (r: Option<nat>)
    ensures r.Some? ==> OccursAt(s, sep, r.value)
    ensures r.Some? ==> forall j: nat :: j < r.value ==> !OccursAt(s, sep, j)
    ensures r.None? ==> forall j: nat :: !OccursAt(s, sep, j)
  {
    FindFrom(s, sep, 0)
  }

  /** Python's `sub in s`. */
  predicate Contains(s: string, sub: string) {
    Find(s, sub).Some?
  }

  /** An occurrence at a known position is found. */
  lemma {:induction false} ContainsAt(s: string, sub: string, i: nat)
    requires OccursAt(s, sub, i)
    ensures Contains(s, sub)
  {
  }

  /** A one-character text occurs exactly when the character does. */
  lemma {:induction false} ContainsChar(s: string, c: char)
    ensures Contains(s, [c]) <==> c in s
  {
    if c in s {
      var i :| 0 <= i < |s| && s[i] == c;
      assert s[i..i + 1] == [c];
      ContainsAt(s, [c], i);
    }
    if Contains(s, [c]) {
      var i := Find(s, [c]).value;
      assert s[i..i + 1] == [c];
      assert s[i] == c;
    }
  }

  /** An occurrence inside a part is an occurrence in the whole. */
  lemma {:induction false} ContainsInFix(a: string, b: string, c: string, sub: string)
    requires Contains(b, sub)
    ensures Contains(a + b + c, sub)
  {
    var i := Find(b, sub).value;
    assert (a + b + c)[|a| + i..|a| + i + |sub|] == b[i..i + |sub|];
    ContainsAt(a + b + c, sub, |a| + i);
  }

  /** Python's `s.split(sep)[0]` for a non-empty `sep`: the text before the
      first occurrence of `sep`, or all of `s` when there is none. */
  function BeforeFirst(s: string, sep: string): (r: string)
    requires sep != []
    ensures |r| <= |s| && r == s[..|r|]
    ensures !Contains(s, sep) ==> r == s
    ensures Contains(s, sep) ==> OccursAt(s, sep, |r|)
    ensures forall j: nat :: j < |r| ==> !OccursAt(s, sep, j)
  {
    match Find(s, sep)
    case None => s
    case Some(i) => s[..i]
  }

  /** Cutting `pre + sep + post` at its first `sep` gives back `pre` when
      `sep` does not start anywhere inside `pre`. */
  lemma {:induction false} BeforeFirstOfJoin(pre: string, sep: string, post: string)
    requires sep != []
    requires forall j: nat :: j < |pre| ==> !OccursAt(pre + sep + post, sep, j)
    ensures BeforeFirst(pre + sep + post, sep) == pre
  {
    var s := pre + sep + post;
    assert s[|pre|..|pre| + |sep|] == sep;
    assert OccursAt(s, sep, |pre|);
    ContainsAt(s, sep, |pre|);
    assert s[..|pre|] == pre;
  }

  // ---------------------------------------------------------------------
  // Splitting on one character, and path names
  // ---------------------------------------------------------------------

  /** Joining parts with a separator character: the inverse of `Split`. */
  function JoinWith(parts: seq<string>, c: char): string
    requires |parts| >= 1
  {
    if |parts| == 1 then parts[0] else parts[0] + [c] + JoinWith(parts[1..], c)
  }

  /** Python's `s.split(c)` for a one-character separator. */
  function Split(s: string, c: char): (parts: seq<string>)
    ensures |parts| >= 1
    ensures forall i :: 0 <= i < |parts| ==> c !in parts[i]
    ensures JoinWith(parts, c) == s
    decreases |s|
  {
    if s == [] then [[]] else PrependChar(s[0], Split(s[1..], c), c)
  }

  /** The parts of `[ch] + t` from the parts of `t`: a separator opens a new
      empty first part, any other character joins the first part. */
  function PrependChar(ch: char, parts: seq<string>, c: char): (r: seq<string>)
    requires |parts| >= 1
    ensures |r| >= 1
    ensures (forall i :: 0 <= i < |parts| ==> c !in parts[i]) ==>
            forall i :: 0 <= i < |r| ==> c !in r[i]
    ensures JoinWith(r, c) == [ch] + JoinWith(parts, c)
  {
    if ch == c then
      var r := [[]] + parts;
      assert r[1..] == parts;
      r
    else
      var r := [[ch] + parts[0]] + parts[1..];
      assert r[1..] == parts[1..];
      assert |parts| > 1 ==> JoinWith(parts, c) == parts[0] + [c] + JoinWith(parts[1..], c);
      r
  }

  /** Prepending a character only touches the first part. */
  lemma {:induction false} PrependAppend(ch: char, x: seq<string>, y: seq<string>, c: char)
    requires |x| >= 1
    ensures PrependChar(ch, x + y, c) == PrependChar(ch, x, c) + y
  {
    if ch != c {
      assert (x + y)[0] == x[0];
      assert (x + y)[1..] == x[1..] + y;
    }
  }

  /** A separator splits the text around it into the parts on either side. */
  lemma {:induction false} SplitAround(a: string, b: string, c: char)
    ensures Split(a + [c] + b, c) == Split(a, c) + Split(b, c)
    decreases |a|
  {
    var s := a + [c] + b;
    if a == [] {
      assert s == [c] + b;
      assert s[1..] == b;
    } else {
      assert s[0] == a[0];
      assert s[1..] == a[1..] + [c] + b;
      SplitAround(a[1..], b, c);
      PrependAppend(a[0], Split(a[1..], c), Split(b, c), c);
    }
  }

  /** Text without the separator is a single part. */
  lemma {:induction false} SplitWithout(a: string, c: char)
    requires c !in a
    ensures Split(a, c) == [a]
    decreases |a|
  {
    if a != [] {
      SplitWithout(a[1..], c);
      assert [a[0]] + a[1..] == a;
    }
  }

  /** Splitting undoes joining, for parts that do not contain the separator. */
  lemma {:induction false} SplitJoin(parts: seq<string>, c: char)
    requires |parts| >= 1
    requires forall i :: 0 <= i < |parts| ==> c !in parts[i]
    ensures Split(JoinWith(parts, c), c) == parts
    decreases |parts|
  {
    if |parts| == 1 {
      SplitWithout(parts[0], c);
    } else {
      SplitJoin(parts[1..], c);
      SplitAround(parts[0], JoinWith(parts[1..], c), c);
      SplitWithout(parts[0], c);
      assert [parts[0]] + parts[1..] == parts;
    }
  }

  /** Python's `s.split(c)[-1]`, also `os.path.basename` when `c` is `/`:
      the text after the last `c`. */
  function AfterLast(s: string, c: char): (r: string)
    ensures |r| <= |s| && r == s[|s| - |r|..]
    ensures c !in r
    ensures |r| < |s| ==> s[|s| - |r| - 1] == c
    decreases |s|
  {
    if s == [] then []
    else if s[|s| - 1] == c then []
    else
      var t, last := s[..|s| - 1], s[|s| - 1];
      var r := AfterLast(t, c);
      var k := |t| - |r|;
      assert r == t[k..];
      assert t[k..] + [last] == s[k..];
      assert k > 0 ==> s[k - 1] == t[k - 1];
      assert c !in [last];
      r + [last]
  }

  /** `AfterLast` of a directory, a `c`, and a name without `c` is the name. */
  lemma {:induction false} AfterLastOfJoin(dir: string, name: string, c: char)
    requires c !in name
    ensures AfterLast(dir + [c] + name, c) == name
    decreases |name|
  {
    var s := dir + [c] + name;
    if name == [] {
      assert s == dir + [c];
    } else {
      var init := name[..|name| - 1];
      assert s[..|s| - 1] == dir + [c] + init;
      assert s[|s| - 1] == name[|name| - 1];
      AfterLastOfJoin(dir, init, c);
      assert init + [name[|name| - 1]] == name;
    }
  }

  /** The root `os.path.splitext` keeps for a final path component `b`: `b`
      up to its last `.`, unless nothing but dots precedes that `.` (a
      leading dot starts a hidden name, not an extension). */
  function SplitExtRoot(b: string): (r: string)
    ensures |r| <= |b| && r == b[..|r|]
  {
    match LastDot(b)
    case None => b
    case Some(d) => if exists j :: 0 <= j < d && b[j] != '.' then b[..d] else b
  }

  /** The index of the last `.` in `b`, if any. */
  function LastDot(b: string): (r: Option<nat>)
    ensures r.Some? ==> r.value < |b| && b[r.value] == '.' && '.' !in b[r.value + 1..]
    ensures r.None? ==> '.' !in b
    decreases |b|
  {
    if b == [] then None
    else if b[|b| - 1] == '.' then Some(|b| - 1)
    else
      var r := LastDot(b[..|b| - 1]);
      assert r.Some? ==> b[r.value + 1..] == b[..|b| - 1][r.value + 1..] + [b[|b| - 1]];
      assert r.None? ==> b == b[..|b| - 1] + [b[|b| - 1]];
      r
  }

  /** The root of `name + ext`, for an extension without a further dot and a
      name that is not all dots, is the name. */
  lemma {:induction false} SplitExtRootOf(name: string, ext: string)
    requires '.' !in ext
    requires exists j :: 0 <= j < |name| && name[j] != '.'
    ensures SplitExtRoot(name + "." + ext) == name
  {
    var b := name + "." + ext;
    var d := |name|;
    assert b[d] == '.';
    assert b[d + 1..] == ext;
    assert forall i :: d < i < |b| ==> b[i] == ext[i - d - 1];
    assert b[..d] == name;
    var j :| 0 <= j < |name| && name[j] != '.';
    assert b[j] != '.';
  }

  // ---------------------------------------------------------------------
  // Whitespace tokens: Python's `s.split()`
  // ---------------------------------------------------------------------

  /** The characters Python's `str.split()` treats as whitespace. */
  predicate IsSpace(ch: char) {
    ch == ' ' || ('\t' <= ch <= '\r') || ('\U{1C}' <= ch <= '\U{1F}') ||
    ch == '\U{85}' || ch == '\U{A0}' || ch == '\U{1680}' ||
    ('\U{2000}' <= ch <= '\U{200A}') || ch == '\U{2028}' || ch == '\U{2029}' ||
    ch == '\U{202F}' || ch == '\U{205F}' || ch == '\U{3000}'
  }

  predicate NoSpace(s: string) {
    forall i :: 0 <= i < |s| ==> !IsSpace(s[i])
  }

  predicate AllSpace(s: string) {
    forall i :: 0 <= i < |s| ==> IsSpace(s[i])
  }

  /** The length of the run of non-space characters that starts `s`. */
  function WordLength(s: string): (n: nat)
    ensures n <= |s| && NoSpace(s[..n])
    ensures n < |s| ==> IsSpace(s[n])
    decreases |s|
  {
    if s == [] || IsSpace(s[0]) then 0
    else
      var k := WordLength(s[1..]);
      assert s[..1 + k] == [s[0]] + s[1..][..k];
      1 + k
  }

  /** Python's `s.split()`: the maximal runs of non-whitespace characters. */
  function Tokens(s: string): (ts: seq<string>)
    ensures forall i :: 0 <= i < |ts| ==> ts[i] != [] && NoSpace(ts[i])
    decreases |s|
  {
    if s == [] then []
    else if IsSpace(s[0]) then Tokens(s[1..])
    else
      var n := WordLength(s);
      [s[..n]] + Tokens(s[n..])
  }

  /** A text has no tokens exactly when it is all whitespace. */
  lemma {:induction false} TokensEmpty(s: string)
    ensures Tokens(s) == [] <==> AllSpace(s)
    decreases |s|
  {
    if s != [] {
      TokensEmpty(s[1..]);
      if IsSpace(s[0]) {
        assert AllSpace(s) <==> AllSpace(s[1..]) by {
          if AllSpace(s[1..]) {
            forall i | 0 <= i < |s| ensures IsSpace(s[i]) {
              if i > 0 { assert s[i] == s[1..][i - 1]; }
            }
          }
        }
      }
    }
  }

  /** A word followed by whitespace or by nothing is the first run. */
  lemma {:induction false} WordLengthOf(w: string, rest: string)
    requires NoSpace(w)
    requires rest == [] || IsSpace(rest[0])
    ensures WordLength(w + rest) == |w|
    decreases |w|
  {
    if w != [] {
      assert (w + rest)[1..] == w[1..] + rest;
      WordLengthOf(w[1..], rest);
    } else {
      assert w + rest == rest;
    }
  }

  /** Leading whitespace yields no token. */
  lemma {:induction false} TokensSkip(sp: string, s: string)
    requires AllSpace(sp)
    ensures Tokens(sp + s) == Tokens(s)
    decreases |sp|
  {
    if sp != [] {
      assert (sp + s)[1..] == sp[1..] + s;
      TokensSkip(sp[1..], s);
    } else {
      assert sp + s == s;
    }
  }

  /** A word, then whitespace or nothing, is the first token. */
  lemma {:induction false} TokensWord(w: string, rest: string)
    requires w != [] && NoSpace(w)
    requires rest == [] || IsSpace(rest[0])
    ensures Tokens(w + rest) == [w] + Tokens(rest)
  {
    WordLengthOf(w, rest);
    assert (w + rest)[..|w|] == w;
    assert (w + rest)[|w|..] == rest;
  }

  /** Two words separated by whitespace split into those two words. */
  lemma {:induction false} TokensOfTwo(a: string, sp: string, b: string)
    requires a != [] && NoSpace(a) && b != [] && NoSpace(b)
    requires sp != [] && AllSpace(sp)
    ensures Tokens(a + sp + b) == [a, b]
  {
    assert a + sp + b == a + (sp + b);
    TokensWord(a, sp + b);
    TokensSkip(sp, b);
    TokensWord(b, []);
    assert b + [] == b;
    assert Tokens([]) == [];
  }

  /** The last token of a text is a run of non-space characters that is
      followed only by whitespace and preceded by whitespace or nothing:
      `pre` and `post` are the text around it. */
  lemma {:induction false} LastTokenPlacement(s: string) returns (pre: string, post: string)
    requires Tokens(s) != []
    ensures s == pre + Tokens(s)[|Tokens(s)| - 1] + post
    ensures AllSpace(post)
    ensures pre == [] || IsSpace(pre[|pre| - 1])
    decreases |s|, 1
  {
    if IsSpace(s[0]) {
      pre, post := LastTokenAfterSpace(s);
    } else {
      pre, post := LastTokenAfterWord(s);
    }
  }

  /** `LastTokenPlacement` for a text that starts with whitespace. */
  lemma {:induction false} LastTokenAfterSpace(s: string) returns (pre: string, post: string)
    requires Tokens(s) != [] && IsSpace(s[0])
    ensures s == pre + Tokens(s)[|Tokens(s)| - 1] + post
    ensures AllSpace(post)
    ensures pre == [] || IsSpace(pre[|pre| - 1])
    decreases |s|, 0
  {
    var ts := Tokens(s);
    var last := ts[|ts| - 1];
    var p, q := LastTokenPlacement(s[1..]);
    assert ts == Tokens(s[1..]);
    pre, post := [s[0]] + p, q;
    calc {
      s;
      [s[0]] + s[1..];
      [s[0]] + (p + last + q);
      pre + last + post;
    }
  }

  /** `LastTokenPlacement` for a text that starts with a token. */
  lemma {:induction false} LastTokenAfterWord(s: string) returns (pre: string, post: string)
    requires Tokens(s) != [] && !IsSpace(s[0])
    ensures s == pre + Tokens(s)[|Tokens(s)| - 1] + post
    ensures AllSpace(post)
    ensures pre == [] || IsSpace(pre[|pre| - 1])
    decreases |s|, 0
  {
    var n := WordLength(s);
    var word, rest := s[..n], s[n..];
    assert s == word + rest;
    assert Tokens(s) == [word] + Tokens(rest);
    if Tokens(rest) == [] {
      TokensEmpty(rest);
      pre, post := [], rest;
    } else {
      var p, q := LastTokenPlacement(rest);
      assert p != [] by {
        assert rest != [] && IsSpace(rest[0]);
        var t := Tokens(rest)[|Tokens(rest)| - 1];
        assert t != [] && !IsSpace(t[0]);
      }
      pre, post := word + p, q;
      Regroup(word, p, Tokens(rest)[|Tokens(rest)| - 1], q);
    }
  }

  /** The converse of `LastTokenPlacement`: a word with only whitespace
      after it, and whitespace or nothing before it, is the last token. */
  lemma {:induction false} LastTokenOf(pre: string, v: string, post: string)
    requires v != [] && NoSpace(v) && AllSpace(post)
    requires pre == [] || IsSpace(pre[|pre| - 1])
    ensures var ts := Tokens(pre + v + post); ts != [] && ts[|ts| - 1] == v
    decreases |pre|
  {
    var s := pre + v + post;
    if pre == [] {
      assert s == v + post;
      TokensWord(v, post);
      TokensEmpty(post);
    } else if IsSpace(pre[0]) {
      assert s[1..] == pre[1..] + v + post;
      LastTokenOf(pre[1..], v, post);
    } else {
      var n := WordLength(s);
      assert s[0] == pre[0] && s[|pre| - 1] == pre[|pre| - 1];
      assert forall i :: 0 <= i < n ==> s[..n][i] == s[i];
      assert 0 < n < |pre|;
      assert s[n..] == pre[n..] + v + post;
      LastTokenOf(pre[n..], v, post);
      assert Tokens(s) == [s[..n]] + Tokens(s[n..]);
    }
  }

  /** Concatenation regrouped around a middle piece. */
  lemma {:induction false} Regroup(x: string, p: string, t: string, q: string)
    ensures x + (p + t + q) == (x + p) + t + q
    ensures p != [] ==> (x + p)[|x + p| - 1] == p[|p| - 1]
  {
  }

  // ---------------------------------------------------------------------
  // Padding and alignment as in `str.format`
  // ---------------------------------------------------------------------

  function Spaces(n: nat): (r: string)
    ensures |r| == n && forall i :: 0 <= i < n ==> r[i] == ' '
  {
    seq(n, _ => ' ')
  }

  function Max(a: int, b: int): int {
    if a < b then b else a
  }

  /** The padding `str.format` adds to a text of length `n` in a field of
      width `w`. */
  function PadWidth(n: nat, w: nat): nat {
    if n < w then w - n else 0
  }

  /** `'{:>w}'.format(s)`: pad on the left to width `w`; never truncates. */
  function RightJustify(s: string, w: nat): (r: string)
    ensures |r| == Max(|s|, w)
  {
    var r := Spaces(PadWidth(|s|, w)) + s;
    assert r[|r| - |s|..] == s;
    r
  }

  /** `'{:^w}'.format(s)`: centre in width `w`; when the padding is odd the
      extra space goes on the right; never truncates. */
  function Center(s: string, w: nat): (r: string)
    ensures |r| == Max(|s|, w)
  {
    var pad := PadWidth(|s|, w);
    Spaces(pad / 2) + (s + Spaces(pad - pad / 2))
  }

  /** Where `Center` puts the text: after half the padding, rounded down. */
  lemma {:induction false} CenterPlacement(s: string, w: nat)
    ensures var r, left := Center(s, w), (Max(|s|, w) - |s|) / 2;
      r[left..left + |s|] == s &&
      (forall i :: 0 <= i < left ==> r[i] == ' ') &&
      (forall i :: left + |s| <= i < |r| ==> r[i] == ' ')
  {
    var pad := PadWidth(|s|, w);
    var left := pad / 2;
    var r := Center(s, w);
    assert r == Spaces(left) + (s + Spaces(pad - left));
    assert r[left..left + |s|] == s;
  }

  /** Python's `s.lstrip(' ')`. */
  function LStrip(s: string): (r: string)
    ensures |r| <= |s| && r == s[|s| - |r|..]
    ensures r == [] || r[0] != ' '
    decreases |s|
  {
    if s != [] && s[0] == ' ' then LStrip(s[1..]) else s
  }

  /** Python's `s.rstrip(' ')`. */
  function RStrip(s: string): (r: string)
    ensures |r| <= |s| && r == s[..|r|]
    ensures r == [] || r[|r| - 1] != ' '
    decreases |s|
  {
    if s != [] && s[|s| - 1] == ' ' then RStrip(s[..|s| - 1]) else s
  }

  /** Python's `s.strip(' ')`. */
  function Strip(s: string): string {
    RStrip(LStrip(s))
  }

  /** Text with no space at either end; strip leaves it alone. */
  predicate Trimmed(s: string) {
    s == [] || (s[0] != ' ' && s[|s| - 1] != ' ')
  }

  lemma {:induction false} LStripPadded(k: nat, s: string)
    requires s == [] || s[0] != ' '
    ensures LStrip(Spaces(k) + s) == s
    decreases k
  {
    if k > 0 {
      assert (Spaces(k) + s)[1..] == Spaces(k - 1) + s;
      LStripPadded(k - 1, s);
    } else {
      assert Spaces(0) + s == s;
    }
  }

  lemma {:induction false} RStripPadded(s: string, k: nat)
    requires s == [] || s[|s| - 1] != ' '
    ensures RStrip(s + Spaces(k)) == s
    decreases k
  {
    if k > 0 {
      assert (s + Spaces(k))[..|s| + k - 1] == s + Spaces(k - 1);
      RStripPadded(s, k - 1);
    } else {
      assert s + Spaces(0) == s;
    }
  }

  /** Stripping a right-justified field recovers it. */
  lemma {:induction false} StripRightJustified(s: string, w: nat)
    requires s == [] || s[0] != ' '
    ensures LStrip(RightJustify(s, w)) == s
  {
    LStripPadded(PadWidth(|s|, w), s);
  }

  /** Stripping a centred field recovers it. */
  lemma {:induction false} StripCentered(s: string, w: nat)
    requires Trimmed(s)
    ensures Strip(Center(s, w)) == s
  {
    var pad := PadWidth(|s|, w);
    var l, r := pad / 2, pad - pad / 2;
    var c := Spaces(l) + (s + Spaces(r));
    assert Center(s, w) == c;
    if s == [] {
      assert c == Spaces(l + r) + [] by {
        assert forall i :: 0 <= i < |c| ==> c[i] == ' ';
      }
      LStripPadded(l + r, []);
    } else {
      StripPadded(l, s, r);
    }
  }

  /** Stripping spaces added on both sides recovers the text. */
  lemma {:induction false} StripPadded(k: nat, s: string, m: nat)
    requires s != [] && Trimmed(s)
    ensures Strip(Spaces(k) + (s + Spaces(m))) == s
  {
    LStripPadded(k, s + Spaces(m));
    RStripPadded(s, m);
  }

  // ---------------------------------------------------------------------
  // Decimal digits
  // ---------------------------------------------------------------------

  predicate IsDigit(ch: char) {
    '0' <= ch <= '9'
  }

  predicate AllDigits(s: string) {
    forall i :: 0 <= i < |s| ==> IsDigit(s[i])
  }

  function DigitChar(d: nat): (ch: char)
    requires d < 10
    ensures IsDigit(ch)
  {
    (48 + d) as char
  }

  function DigitValue(ch: char): nat
    requires IsDigit(ch)
  {
    ch as int - 48
  }

  /** The number a string of decimal digits denotes (leading zeros allowed). */
  function DigitsValue(s: string): nat
    requires AllDigits(s)
  {
    if s == [] then 0 else 10 * DigitsValue(s[..|s| - 1]) + DigitValue(s[|s| - 1])
  }

  function Pow10(p: nat): (r: nat)
    ensures r >= 1
  {
    if p == 0 then 1 else 10 * Pow10(p - 1)
  }

  /** The shortest decimal text of `n`, as Python's `str(n)`. */
  function Decimal(n: nat): (r: string)
    ensures |r| >= 1 && AllDigits(r)
    ensures |r| > 1 ==> r[0] != '0'
    ensures DigitsValue(r) == n
    decreases n
  {
    if n < 10 then [DigitChar(n)]
    else
      var h := Decimal(n / 10);
      var r := h + [DigitChar(n % 10)];
      assert r[..|r| - 1] == h;
      r
  }

  /** A number below `10^p` has at most `p` digits. */
  lemma {:induction false} DecimalLength(n: nat, p: nat)
    requires 1 <= p && n < Pow10(p)
    ensures |Decimal(n)| <= p
    decreases p
  {
    if n >= 10 {
      assert p > 1;
      DecimalLength(n / 10, p - 1);
    }
  }

  function Zeros(k: nat): (r: string)
    ensures |r| == k && AllDigits(r)
    ensures forall i :: 0 <= i < k ==> r[i] == '0'
  {
    seq(k, _ => '0')
  }

  /** Leading zeros do not change the value of a digit string. */
  lemma {:induction false} LeadingZeros(k: nat, s: string)
    requires AllDigits(s)
    ensures AllDigits(Zeros(k) + s) && DigitsValue(Zeros(k) + s) == DigitsValue(s)
    decreases |s|, k
  {
    var z := Zeros(k) + s;
    if s == [] {
      assert z == Zeros(k);
      if k > 0 {
        assert z[..|z| - 1] == Zeros(k - 1) + [];
        LeadingZeros(k - 1, []);
      }
    } else {
      assert z[..|z| - 1] == Zeros(k) + s[..|s| - 1];
      LeadingZeros(k, s[..|s| - 1]);
    }
  }

  /** `'%0wd' % n` for `n >= 0`: the decimal text of `n`, zero-padded on the
      left to width `w`. */
  function ZeroPad(n: nat, w: nat): (r: string)
    ensures |r| == Max(|Decimal(n)|, w) && AllDigits(r)
    ensures DigitsValue(r) == n
  {
    var d := Decimal(n);
    LeadingZeros(if |d| < w then w - |d| else 0, d);
    Zeros(if |d| < w then w - |d| else 0) + d
  }

  /** Zero-padded texts of different numbers differ. */
  lemma {:induction false} ZeroPadInjective(a: nat, b: nat, w: nat)
    requires ZeroPad(a, w) == ZeroPad(b, w)
    ensures a == b
  {
  }

  /** Different numbers have different zero-padded texts. */
  lemma {:induction false} ZeroPadDistinct(a: nat, b: nat, w: nat)
    requires a != b
    ensures ZeroPad(a, w) != ZeroPad(b, w)
  {
  }

  /** Python's `str(n)` for any integer. */
  function IntString(n: int): (r: string)
    ensures |r| >= 1 && r[0] != ' '
  {
    if n < 0 then "-" + Decimal(-n) else Decimal(n)
  }

  /** The value of a string of decimal digits, or `None` when some character
      is not a digit. */
  function DigitsOf(s: string): Option<nat>
    decreases |s|
  {
    if s == [] then Some(0)
    else
      match DigitsOf(s[..|s| - 1])
      case None => None
      case Some(v) => if IsDigit(s[|s| - 1]) then Some(10 * v + DigitValue(s[|s| - 1])) else None
  }

  /** `DigitsOf` accepts exactly the digit strings, with the value they
      denote. */
  lemma {:induction false} DigitsOfValue(s: string)
    ensures DigitsOf(s).Some? <==> AllDigits(s)
    ensures AllDigits(s) ==> DigitsOf(s) == Some(DigitsValue(s))
    decreases |s|
  {
    if s != [] {
      var init := s[..|s| - 1];
      DigitsOfValue(init);
      assert forall i :: 0 <= i < |init| ==> init[i] == s[i];
    }
  }

  /** Python's `int(t)` on a token: an optional sign followed by decimal
      digits; `None` stands for the `ValueError` it raises otherwise. */
  function ParseInt(t: string): (r: Option<int>)
    ensures r.Some? ==> t != [] && NoSpace(t)
  {
    var signed := |t| > 0 && (t[0] == '-' || t[0] == '+');
    var digits := if signed then t[1..] else t;
    DigitsOfValue(digits);
    assert signed ==> forall i :: 0 < i < |t| ==> t[i] == digits[i - 1];
    if digits == [] then None
    else
      match DigitsOf(digits)
      case None => None
      case Some(v) => var n: int := v; Some(if signed && t[0] == '-' then -n else n)
  }

  /** `int` reads back what `str` writes. */
  lemma {:induction false} ParseIntString(n: int)
    ensures ParseInt(IntString(n)) == Some(n)
  {
    if n < 0 {
      var d := Decimal(-n);
      assert IntString(n)[1..] == d;
      DigitsOfValue(d);
    } else {
      var d := Decimal(n);
      assert IsDigit(d[0]);
      DigitsOfValue(d);
    }
  }

  /** The whole part of `a / 10^p`, one decimal digit at a time. */
  function Quot(a: nat, p: nat): nat {
    if p == 0 then a else Quot(a / 10, p - 1)
  }

  /** The last `p` decimal digits of `a`: the remainder of `a / 10^p`. */
  function Rem(a: nat, p: nat): nat {
    if p == 0 then 0 else a % 10 + 10 * Rem(a / 10, p - 1)
  }

  /** `v * 10^p`, by repeated multiplication by ten. */
  function Shift(v: nat, p: nat): nat {
    if p == 0 then v else 10 * Shift(v, p - 1)
  }

  /** Quotient and remainder recompose the number; the remainder is below the
      power. */
  lemma {:induction false} DivModPow10(a: nat, p: nat)
    ensures Shift(Quot(a, p), p) + Rem(a, p) == a
    ensures Rem(a, p) < Pow10(p)
  {
    if p > 0 {
      DivModPow10(a / 10, p - 1);
      ShiftQuot(a / 10, p - 1);
    }
  }

  /** `Shift` by one more place is ten times the shift. */
  lemma {:induction false} ShiftQuot(a: nat, p: nat)
    ensures Shift(Quot(a, p), p + 1) == 10 * Shift(Quot(a, p), p)
  {
  }

  /** `'{: w.pf}'.format(v)` for the value `v = m / 10^p` held exactly as the
      integer `m`: a sign column (`-`, or a space for a non-negative value),
      the integer part, a point and `p` fraction digits. */
  function FixedPoint(m: int, p: nat): (r: string)
    requires p >= 1
    ensures |r| >= p + 3 && (r[0] == ' ' || r[0] == '-')
  {
    SignColumn(m) + FixedBody(Quot(Abs(m), p), Rem(Abs(m), p), p)
  }

  /** The sign column of `'{: ...}'`: a minus for a negative value, else a
      space. */
  function SignColumn(m: int): string {
    if m < 0 then "-" else " "
  }

  function Abs(m: int): nat {
    if m < 0 then -m else m
  }

  /** The digits of a fixed-point number: integer part, point, fraction. */
  function FixedBody(q: nat, rm: nat, p: nat): (r: string)
    ensures |r| >= p + 2 && IsDigit(r[0])
  {
    Decimal(q) + "." + ZeroPad(rm, p)
  }

  /** Reads `[-]digits.digits` with `p` fraction digits back to the integer
      count of `10^-p` units it denotes. */
  function ParseFixed(t: string, p: nat): Option<int> {
    var neg := |t| > 0 && t[0] == '-';
    match ParseUnsignedFixed(if neg then t[1..] else t, p)
    case None => None
    case Some(v) => Some(if neg then -v else v)
  }

  /** Reads `digits.digits` with `p` fraction digits. */
  function ParseUnsignedFixed(t: string, p: nat): Option<int> {
    if |t| < p + 2 || t[|t| - p - 1] != '.' then None
    else
      match (DigitsOf(t[..|t| - p - 1]), DigitsOf(t[|t| - p..]))
      case (Some(whole), Some(frac)) => Some(Shift(whole, p) + frac)
      case _ => None
  }

  /** `digits.digits` with exactly `p` fraction digits reads back. */
  lemma {:induction false} ParseUnsignedFixedOf(t: string, d: string, z: string, p: nat)
    requires d != [] && AllDigits(d) && AllDigits(z) && |z| == p
    requires t == d + "." + z
    ensures ParseUnsignedFixed(t, p) == Some(Shift(DigitsValue(d), p) + DigitsValue(z))
  {
    assert t[..|t| - p - 1] == d;
    assert t[|t| - p..] == z;
    assert t[|t| - p - 1] == '.';
    DigitsOfValue(d);
    DigitsOfValue(z);
  }

  /** The digits of a fixed-point number read back to quotient and remainder. */
  lemma {:induction false} ParseFixedBody(q: nat, rm: nat, p: nat)
    requires p >= 1 && rm < Pow10(p)
    ensures ParseUnsignedFixed(FixedBody(q, rm, p), p) == Some(Shift(q, p) + rm)
  {
    var d, z := Decimal(q), ZeroPad(rm, p);
    DecimalLength(rm, p);
    ParseUnsignedFixedOf(FixedBody(q, rm, p), d, z, p);
  }

  /** A minus sign in front of an unsigned text negates what it reads as. */
  lemma {:induction false} ParseFixedSign(body: string, p: nat, v: int, neg: bool)
    requires ParseUnsignedFixed(body, p) == Some(v)
    requires body == [] || body[0] != '-'
    ensures ParseFixed((if neg then "-" else "") + body, p) == Some(if neg then -v else v)
  {
    var t := (if neg then "-" else "") + body;
    if neg {
      assert t[0] == '-' && t[1..] == body;
    } else {
      assert t == body;
    }
  }

  /** A sign space in front of a field is stripped with its padding. */
  lemma {:induction false} StripSignSpace(body: string, w: nat)
    requires body != [] && body[0] != ' '
    ensures LStrip(RightJustify(" " + body, w)) == body
  {
    var f := " " + body;
    var k := PadWidth(|f|, w);
    assert RightJustify(f, w) == Spaces(k) + f;
    assert Spaces(k) + f == Spaces(k + 1) + body;
    LStripPadded(k + 1, body);
  }

  /** A signed column, right-justified and stripped again, reads back. */
  lemma {:induction false} ParseColumn(f: string, body: string, p: nat, w: nat, m: int)
    requires body != [] && IsDigit(body[0])
    requires f == SignColumn(m) + body
    requires ParseUnsignedFixed(body, p) == Some(Abs(m))
    ensures ParseFixed(LStrip(RightJustify(f, w)), p) == Some(m)
  {
    if m < 0 {
      StripRightJustified(f, w);
      ParseFixedSign(body, p, Abs(m), true);
    } else {
      StripSignSpace(body, w);
      ParseFixedSign(body, p, Abs(m), false);
      assert "" + body == body;
    }
  }

  /** A fixed-point text is a sign column and digits that read back to the
      magnitude. */
  lemma {:induction false} FixedPointParts(m: int, p: nat) returns (body: string)
    requires p >= 1
    ensures FixedPoint(m, p) == SignColumn(m) + body
    ensures body != [] && IsDigit(body[0])
    ensures ParseUnsignedFixed(body, p) == Some(Abs(m))
  {
    body := FixedBody(Quot(Abs(m), p), Rem(Abs(m), p), p);
    ParseMagnitude(Abs(m), p);
  }

  /** The digits written for a magnitude read back to it. */
  lemma {:induction false} ParseMagnitude(a: nat, p: nat)
    requires p >= 1
    ensures ParseUnsignedFixed(FixedBody(Quot(a, p), Rem(a, p), p), p) == Some(a)
  {
    DivModPow10(a, p);
    ParseFixedBody(Quot(a, p), Rem(a, p), p);
  }

  /** A fixed-point column, with its padding and sign space stripped, reads
      back to the integer it was written from. */
  lemma {:induction false} FixedPointRoundTrip(m: int, p: nat, w: nat)
    requires p >= 1
    ensures ParseFixed(LStrip(RightJustify(FixedPoint(m, p), w)), p) == Some(m)
  {
    var body := FixedPointParts(m, p);
    ParseColumn(FixedPoint(m, p), body, p, w, m);
  }
}
