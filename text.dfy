/** The Python string and list built-ins the pipeline uses, on `string`
    (a sequence of characters): `split`, `strip`, `list.remove`, `list.index`,
    `str.replace` and `os.path.join`. */
module Text {
  import opened Results

  /** `s.split(sep)`: the pieces of `s` between the occurrences of `sep`. */
  function Split(s: string, sep: char): (r: seq<string>)
    ensures |r| >= 1
    ensures forall i :: 0 <= i < |r| ==> sep !in r[i]
    decreases |s|
  {
    if |s| == 0 then [""]
    else
      var rest := Split(s[1..], sep);
      if s[0] == sep then [""] + rest
      else [[s[0]] + rest[0]] + rest[1..]
  }

  /** `sep.join(ts)`: the inverse of `Split`. */
  function Join(ts: seq<string>, sep: char): string
    requires |ts| >= 1
    decreases |ts|
  {
    if |ts| == 1 then ts[0] else ts[0] + [sep] + Join(ts[1..], sep)
  }

  /** Joining the pieces of a split gives back the string. */
  lemma {:induction false} JoinSplit(s: string, sep: char)
    ensures Join(Split(s, sep), sep) == s
    decreases |s|
  {
    if |s| > 0 {
      JoinSplit(s[1..], sep);
      var rest := Split(s[1..], sep);
      if s[0] == sep {
        assert Split(s, sep)[1..] == rest;
      } else if |rest| > 1 {
        assert Split(s, sep)[1..] == rest[1..];
      }
      assert s == [s[0]] + s[1..];
    }
  }

  lemma {:induction false} SplitNoSep(a: string, sep: char)
    requires sep !in a
    ensures Split(a, sep) == [a]
    decreases |a|
  {
    if |a| > 0 {
      SplitNoSep(a[1..], sep);
      assert a == [a[0]] + a[1..];
    }
  }

  lemma {:induction false} SplitAfterSep(a: string, b: string, sep: char)
    requires sep !in a
    ensures Split(a + [sep] + b, sep) == [a] + Split(b, sep)
    decreases |a|
  {
    var s := a + [sep] + b;
    if |a| == 0 {
      assert s[1..] == b;
    } else {
      assert s[1..] == a[1..] + [sep] + b;
      SplitAfterSep(a[1..], b, sep);
      assert a == [a[0]] + a[1..];
    }
  }

  /** Splitting a join of separator-free pieces gives back the pieces. */
  lemma {:induction false} SplitJoin(ts: seq<string>, sep: char)
    requires |ts| >= 1
    requires forall i :: 0 <= i < |ts| ==> sep !in ts[i]
    ensures Split(Join(ts, sep), sep) == ts
    decreases |ts|
  {
    if |ts| == 1 {
      SplitNoSep(ts[0], sep);
    } else {
      SplitJoin(ts[1..], sep);
      SplitAfterSep(ts[0], Join(ts[1..], sep), sep);
      assert ts == [ts[0]] + ts[1..];
    }
  }

  /** `s.lstrip(chars)`: drops the leading characters that are in `drop`. */
  function TrimLeft(s: string, drop: set<char>): (r: string)
    ensures |r| <= |s| && r == s[|s| - |r|..]
    ensures forall k :: 0 <= k < |s| - |r| ==> s[k] in drop
    ensures r == [] || r[0] !in drop
    decreases |s|
  {
    if |s| > 0 && s[0] in drop then TrimLeft(s[1..], drop) else s
  }

  /** `s.rstrip(chars)`: drops the trailing characters that are in `drop`. */
  function TrimRight(s: string, drop: set<char>): (r: string)
    ensures |r| <= |s| && r == s[..|r|]
    ensures forall k :: |r| <= k < |s| ==> s[k] in drop
    ensures r == [] || r[|r| - 1] !in drop
    decreases |s|
  {
    if |s| > 0 && s[|s| - 1] in drop then TrimRight(s[..|s| - 1], drop) else s
  }

  /** `r` is `s` from position `a` on, and everything cut from either end is
      in `drop`. */
  predicate CutTo(s: string, drop: set<char>, a: nat, r: string)
  {
    && a + |r| <= |s| && r == s[a..a + |r|]
    && (forall k :: 0 <= k < a ==> s[k] in drop)
    && (forall k :: a + |r| <= k < |s| ==> s[k] in drop)
  }

  /** `s.strip(chars)`: the middle of `s` left once the characters in `drop`
      are cut from both ends. */
  function Strip(s: string, drop: set<char>): (r: string)
    ensures r == [] || (r[0] !in drop && r[|r| - 1] !in drop)
    ensures (forall k :: 0 <= k < |s| ==> s[k] !in drop) ==> r == s
    ensures exists a: nat :: CutTo(s, drop, a, r)
  {
    var t := TrimLeft(s, drop);
    var r := TrimRight(t, drop);
    CutTwice(s, t, r, drop);
    r
  }

  /** A front cut followed by a back cut is one `CutTo`. */
  lemma CutTwice(s: string, t: string, r: string, drop: set<char>)
    requires |t| <= |s| && t == s[|s| - |t|..]
    requires forall k :: 0 <= k < |s| - |t| ==> s[k] in drop
    requires |r| <= |t| && r == t[..|r|]
    requires forall k :: |r| <= k < |t| ==> t[k] in drop
    ensures CutTo(s, drop, |s| - |t|, r)
  {
    var a := |s| - |t|;
    assert forall k :: a + |r| <= k < |s| ==> s[k] == t[k - a];
  }

  /** `lstrip` cuts exactly a leading run of `drop` characters. */
  lemma {:induction false} TrimLeftPadded(pre: string, u: string, drop: set<char>)
    requires forall k :: 0 <= k < |pre| ==> pre[k] in drop
    requires |u| > 0 && u[0] !in drop
    ensures TrimLeft(pre + u, drop) == u
    decreases |pre|
  {
    if |pre| == 0 {
      assert pre + u == u;
    } else {
      assert (pre + u)[0] == pre[0];
      assert (pre + u)[1..] == pre[1..] + u;
      TrimLeftPadded(pre[1..], u, drop);
    }
  }

  /** `rstrip` cuts exactly a trailing run of `drop` characters. */
  lemma {:induction false} TrimRightPadded(v: string, post: string, drop: set<char>)
    requires forall k :: 0 <= k < |post| ==> post[k] in drop
    requires |v| > 0 && v[|v| - 1] !in drop
    ensures TrimRight(v + post, drop) == v
    decreases |post|
  {
    if |post| == 0 {
      assert v + post == v;
    } else {
      var s := v + post;
      assert s[|s| - 1] == post[|post| - 1];
      assert s[..|s| - 1] == v + post[..|post| - 1];
      TrimRightPadded(v, post[..|post| - 1], drop);
    }
  }

  /** Stripping cuts exactly the padding around a middle that neither starts
      nor ends with a character in `drop`. */
  lemma StripPadded(pre: string, t: string, post: string, drop: set<char>)
    requires forall k :: 0 <= k < |pre| ==> pre[k] in drop
    requires forall k :: 0 <= k < |post| ==> post[k] in drop
    requires |t| > 0 && t[0] !in drop && t[|t| - 1] !in drop
    ensures Strip(pre + t + post, drop) == t
  {
    assert pre + t + post == pre + (t + post);
    TrimLeftPadded(pre, t + post, drop);
    TrimRightPadded(t, post, drop);
  }

  /** `xs.remove(x)` guarded by `x in xs`: the first occurrence of `x` goes,
      everything else stays in order. */
  function RemoveFirst<T(==)>(xs: seq<T>, x: T): (r: seq<T>)
    ensures x !in xs ==> r == xs
    ensures x in xs ==> |r| == |xs| - 1
    decreases |xs|
  {
    if |xs| == 0 then []
    else if xs[0] == x then xs[1..]
    else [xs[0]] + RemoveFirst(xs[1..], x)
  }

  /** One occurrence of `x` goes, and nothing else. */
  lemma {:induction false} RemoveFirstCount<T>(xs: seq<T>, x: T)
    ensures multiset(RemoveFirst(xs, x)) == multiset(xs) - multiset{x}
    decreases |xs|
  {
    if |xs| > 0 {
      assert xs == [xs[0]] + xs[1..];
      if xs[0] != x {
        RemoveFirstCount(xs[1..], x);
      }
    }
  }

  /** Only the first occurrence is removed: later ones remain where they were. */
  lemma {:induction false} RemoveFirstAt<T>(xs: seq<T>, x: T, i: nat)
    requires i < |xs| && xs[i] == x && forall k :: 0 <= k < i ==> xs[k] != x
    ensures RemoveFirst(xs, x) == xs[..i] + xs[i + 1..]
    decreases i
  {
    if i == 0 {
      assert xs[..0] + xs[1..] == xs[1..];
    } else {
      var ys := xs[1..];
      RemoveFirstAt(ys, x, i - 1);
      assert RemoveFirst(xs, x) == [xs[0]] + (ys[..i - 1] + ys[i..]);
      assert xs[..i] + xs[i + 1..] == [xs[0]] + (ys[..i - 1] + ys[i..]);
    }
  }

  /** `xs.index(x)`, with `None` where Python raises `ValueError`. */
  function IndexOf<T(==)>(xs: seq<T>, x: T): (r: Option<nat>)
    ensures r.Some? <==> x in xs
    ensures r.Some? ==> r.value < |xs| && xs[r.value] == x && x !in xs[..r.value]
    decreases |xs|
  {
    if |xs| == 0 then None
    else if xs[0] == x then Some(0)
    else
      var k := IndexOf(xs[1..], x);
      if k.Some? then
        assert xs[..k.value + 1] == [xs[0]] + xs[1..][..k.value];
        Some(k.value + 1)
      else None
  }

  /** `s.replace(pat, repl)`: every leftmost, non-overlapping occurrence of a
      non-empty `pat` is replaced. */
  function ReplaceAll(s: string, pat: string, repl: string): string
    requires |pat| > 0
    decreases |s|
  {
    if |s| < |pat| then s
    else if s[..|pat|] == pat then repl + ReplaceAll(s[|pat|..], pat, repl)
    else [s[0]] + ReplaceAll(s[1..], pat, repl)
  }

  /** Replacing one character by another keeps the length and changes exactly
      the positions that held the first one. */
  lemma {:induction false} ReplaceChar(s: string, a: char, b: char)
    ensures |ReplaceAll(s, [a], [b])| == |s|
    ensures forall i :: 0 <= i < |s| ==>
      ReplaceAll(s, [a], [b])[i] == (if s[i] == a then b else s[i])
    decreases |s|
  {
    if |s| > 0 {
      ReplaceChar(s[1..], a, b);
      assert s[..1] == [s[0]];
    }
  }

  /** A pattern whose first character never occurs leaves the string as it is. */
  lemma {:induction false} ReplaceAbsent(s: string, pat: string, repl: string)
    requires |pat| > 0 && pat[0] !in s
    ensures ReplaceAll(s, pat, repl) == s
    decreases |s|
  {
    if |s| >= |pat| {
      assert s[..|pat|][0] == s[0];
      assert s[0] in s;
      ReplaceAbsent(s[1..], pat, repl);
      assert s == [s[0]] + s[1..];
    }
  }

  /** `os.path.join(a, b)` on POSIX: an absolute `b` wins, otherwise one `/`
      goes between unless `a` is empty or already ends in `/`. */
  function PathJoin(a: string, b: string): (r: string)
    ensures |b| > 0 && b[0] == '/' ==> r == b
    ensures (|b| == 0 || b[0] != '/') && |a| > 0 && a[|a| - 1] != '/' ==> r == a + "/" + b
    ensures (|b| == 0 || b[0] != '/') && (|a| == 0 || a[|a| - 1] == '/') ==> r == a + b
  {
    if |b| > 0 && b[0] == '/' then b
    else if |a| == 0 || a[|a| - 1] == '/' then a + b
    else a + "/" + b
  }

  /** `s.rfind(c)`: the last position of `c`, `None` where Python gives -1. */
  function LastIndexOf(s: string, c: char): (r: Option<nat>)
    ensures r.Some? <==> c in s
    ensures r.Some? ==> r.value < |s| && s[r.value] == c && c !in s[r.value + 1..]
    decreases |s|
  {
    if |s| == 0 then None
    else if s[|s| - 1] == c then Some(|s| - 1)
    else
      var init := s[..|s| - 1];
      assert s == init + [s[|s| - 1]];
      var k := LastIndexOf(init, c);
      if k.Some? then
        assert s[k.value + 1..] == init[k.value + 1..] + [s[|s| - 1]];
        k
      else k
  }

  /** `os.path.splitext(p)[0]` on POSIX: everything before the last `.` of
      the last path component, unless only dots precede that `.` in the
      component (a leading-dot name such as `.txt` has no extension). */
  function SplitExtRoot(p: string): (root: string)
    ensures root <= p
    ensures root == p || p[|root|] == '.'
    ensures root != p ==> '.' !in p[|root| + 1..] && '/' !in p[|root|..]
  {
    var sep := LastIndexOf(p, '/');
    var dot := LastIndexOf(p, '.');
    var start: nat := if sep.Some? then sep.value + 1 else 0;
    if dot.Some? && dot.value >= start && exists k :: start <= k < dot.value && p[k] != '.' then p[..dot.value]
    else p
  }

  /** A name without `/` and not starting with `.`, given its `.txt`
      extension, loses exactly the extension. */
  lemma SplitExtTxt(name: string)
    requires |name| > 0 && name[0] != '.' && '/' !in name
    ensures SplitExtRoot(name + ".txt") == name
  {
    var p := name + ".txt";
    assert p[|name|] == '.';
    assert p[|name| + 1..] == "txt";
    assert p[0] == name[0];
    assert p[..|name|] == name;
    assert forall k :: 0 <= k < |name| ==> p[k] == name[k];
    assert '/' !in p by {
      assert forall k :: |name| <= k < |p| ==> p[k] in ".txt";
    }
  }

  /** A name with no `.` has no extension. */
  lemma SplitExtNoDot(name: string)
    requires '.' !in name
    ensures SplitExtRoot(name) == name
  {
  }

  /** Equal texts after a common prefix are equal. */
  lemma CancelPrefix(p: string, a: string, b: string)
    requires p + a == p + b
    ensures a == b
  {
    assert a == (p + a)[|p|..];
    assert b == (p + b)[|p|..];
  }

  /** Equal texts before a common suffix are equal. */
  lemma CancelSuffix(a: string, b: string, q: string)
    requires a + q == b + q
    ensures a == b
  {
    assert a == (a + q)[..|a|];
    assert b == (b + q)[..|b|];
  }
}
