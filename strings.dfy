/** The parts of Go's `strings` package (and `unicode.IsSpace`) that the Vault
    issuer relies on: `Join` for the `alt_names` parameter and `TrimSpace` for
    values read out of secrets. `Split` is not called by the issuer; it is the
    inverse of `Join` that a receiver of a comma-joined list applies. */
module Strings {

  /** Go's `unicode.IsSpace`: the Latin-1 white space characters and the
      other code points with the Unicode White_Space property. */
  predicate IsSpace(c: char) {
    var n := c as int;
    (0x09 <= n <= 0x0D) || n == 0x20 || n == 0x85 || n == 0xA0 ||
    n == 0x1680 || (0x2000 <= n <= 0x200A) || n == 0x2028 || n == 0x2029 ||
    n == 0x202F || n == 0x205F || n == 0x3000
  }

  /** `s[..i]` and `s[j..]` are white space and `s[i..j]` neither starts nor
      ends with white space: the bounds of the trimmed part of `s`. */
  ghost predicate TrimBounds(s: string, i: int, j: int) {
    && 0 <= i <= j <= |s|
    && (forall k :: 0 <= k < i ==> IsSpace(s[k]))
    && (forall k :: j <= k < |s| ==> IsSpace(s[k]))
    && (i < j ==> !IsSpace(s[i]) && !IsSpace(s[j - 1]))
  }

  /** `r` is `s` with its leading and trailing white space removed and
      nothing else: the reference meaning of trimming. */
  ghost predicate IsTrimOf(r: string, s: string) {
    exists i, j :: TrimBounds(s, i, j) && r == s[i..j]
  }

  /** Number of white space characters at the start of `s`. */
  function LeadingSpaces(s: string): (n: nat)
    ensures n <= |s|
    ensures forall k :: 0 <= k < n ==> IsSpace(s[k])
    ensures n < |s| ==> !IsSpace(s[n])
  {
    if s == [] || !IsSpace(s[0]) then 0
    else 1 + LeadingSpaces(s[1..])
  }

  /** Number of white space characters at the end of `s`. */
  function TrailingSpaces(s: string): (n: nat)
    ensures n <= |s|
    ensures forall k :: |s| - n <= k < |s| ==> IsSpace(s[k])
    ensures n < |s| ==> !IsSpace(s[|s| - n - 1])
  {
    if s == [] || !IsSpace(s[|s| - 1]) then 0
    else 1 + TrailingSpaces(s[..|s| - 1])
  }

  /** Go's `strings.TrimSpace`. */
  function TrimSpace(s: string): (r: string)
    ensures IsTrimOf(r, s)
    ensures |r| <= |s|
  {
    var i := LeadingSpaces(s);
    var t := s[i..];
    var n := TrailingSpaces(t);
    var j := i + |t| - n;
    assert forall k :: j <= k < |s| ==> s[k] == t[k - i];
    assert i < j ==> s[j - 1] == t[|t| - n - 1];
    assert TrimBounds(s, i, j);
    s[i..j]
  }

  /** The bounds of the trimmed part are determined by `s` (up to where an
      all-white-space string is cut). */
  lemma TrimBoundsUnique(s: string, i1: int, j1: int, i2: int, j2: int)
    requires TrimBounds(s, i1, j1) && TrimBounds(s, i2, j2)
    ensures s[i1..j1] == s[i2..j2]
  {
    if i1 < j1 {
      assert !IsSpace(s[i1]) && !IsSpace(s[j1 - 1]);
    }
    if i2 < j2 {
      assert !IsSpace(s[i2]) && !IsSpace(s[j2 - 1]);
    }
  }

  /** There is only one way to trim a string. */
  lemma TrimOfUnique(r1: string, r2: string, s: string)
    requires IsTrimOf(r1, s) && IsTrimOf(r2, s)
    ensures r1 == r2
  {
    var i1, j1 :| TrimBounds(s, i1, j1) && r1 == s[i1..j1];
    var i2, j2 :| TrimBounds(s, i2, j2) && r2 == s[i2..j2];
    TrimBoundsUnique(s, i1, j1, i2, j2);
  }

  /** Trimming a trimmed value changes nothing. */
  lemma TrimSpaceIdempotent(s: string)
    ensures TrimSpace(TrimSpace(s)) == TrimSpace(s)
  {
    var r := TrimSpace(s);
    var i, j :| TrimBounds(s, i, j) && r == s[i..j];
    assert TrimBounds(r, 0, |r|);
    assert r[0..|r|] == r;
    TrimOfUnique(TrimSpace(r), r, r);
  }

  /** `s` ends with `t`. */
  predicate EndsWith(s: string, t: string) {
    |t| <= |s| && s[|s| - |t|..] == t
  }

  lemma EndsWithTrans(a: string, b: string, c: string)
    requires EndsWith(a, b) && EndsWith(b, c)
    ensures EndsWith(a, c)
  {
    assert a[|a| - |c|..] == a[|a| - |b|..][|b| - |c|..];
  }

  /** Go's `strings.Join`: the elements in order, separated by `sep`. */
  function Join(xs: seq<string>, sep: string): (r: string)
    ensures xs == [] ==> r == ""
    ensures |xs| == 1 ==> r == xs[0]
    ensures |xs| > 0 ==> |xs[0]| <= |r| && r[..|xs[0]|] == xs[0]
  {
    if |xs| == 0 then ""
    else if |xs| == 1 then xs[0]
    else xs[0] + sep + Join(xs[1..], sep)
  }

  /** Position of the first occurrence of `c` in `s`. */
  function IndexOf(s: string, c: char): (i: nat)
    requires c in s
    ensures i < |s| && s[i] == c
    ensures forall k :: 0 <= k < i ==> s[k] != c
  {
    if s[0] == c then 0 else IndexOf(s[1..], c) + 1
  }

  /** Go's `strings.Split` with a one-character separator: the maximal
      separator-free pieces, `[""]` for the empty string. */
  function Split(s: string, sep: char): (parts: seq<string>)
    ensures |parts| > 0
    ensures forall k :: 0 <= k < |parts| ==> sep !in parts[k]
    decreases |s|
  {
    if sep !in s then [s]
    else
      var i := IndexOf(s, sep);
      [s[..i]] + Split(s[i + 1..], sep)
  }

  lemma IndexOfConcat(a: string, c: char, b: string)
    requires c !in a
    ensures c in a + [c] + b && IndexOf(a + [c] + b, c) == |a|
  {
    var s := a + [c] + b;
    assert s[|a|] == c;
    assert forall k :: 0 <= k < |a| ==> s[k] == a[k] && a[k] != c;
  }

  /** Splitting a joined list gives the list back, provided no element
      contains the separator. (The empty list joins to "" and splits to
      [""], so it is excluded.) */
  lemma {:induction false} SplitJoin(xs: seq<string>, sep: char)
    requires |xs| > 0
    requires forall k :: 0 <= k < |xs| ==> sep !in xs[k]
    ensures Split(Join(xs, [sep]), sep) == xs
  {
    if |xs| > 1 {
      var rest := Join(xs[1..], [sep]);
      var s := Join(xs, [sep]);
      assert s == xs[0] + [sep] + rest;
      IndexOfConcat(xs[0], sep, rest);
      assert s[..|xs[0]|] == xs[0];
      assert s[|xs[0]| + 1..] == rest;
      assert Split(s, sep) == [xs[0]] + Split(rest, sep);
      SplitJoin(xs[1..], sep);
      assert xs == [xs[0]] + xs[1..];
    }
  }

  /** Joining the pieces of a split gives the string back. */
  lemma {:induction false} JoinSplit(s: string, sep: char)
    ensures Join(Split(s, sep), [sep]) == s
    decreases |s|
  {
    if sep in s {
      var i := IndexOf(s, sep);
      var tail := s[i + 1..];
      JoinSplit(tail, sep);
      var parts := Split(tail, sep);
      assert Split(s, sep) == [s[..i]] + parts;
      assert ([s[..i]] + parts)[1..] == parts;
      assert s == s[..i] + [sep] + tail;
    }
  }

  /** Joining a concatenation of lists. */
  lemma {:induction false} JoinAppend(xs: seq<string>, ys: seq<string>, sep: string)
    requires |xs| > 0 && |ys| > 0
    ensures Join(xs + ys, sep) == Join(xs, sep) + sep + Join(ys, sep)
  {
    if |xs| > 1 {
      JoinAppend(xs[1..], ys, sep);
      assert (xs + ys)[1..] == xs[1..] + ys;
    } else {
      assert (xs + ys)[1..] == ys;
    }
  }
}
