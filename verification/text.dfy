/** The Python string operations the pipeline relies on: `str.strip()`,
    `sep.join(list)` and `os.path.basename` on POSIX paths. */
module Text {

  /** Python's `str.isspace` for a single code point (the characters `str.strip()` removes). */
  predicate IsSpace(c: char)
  {
    var n := c as int;
    (0x09 <= n <= 0x0D) || (0x1C <= n <= 0x20) || n == 0x85 || n == 0xA0 || n == 0x1680
    || (0x2000 <= n <= 0x200A) || n == 0x2028 || n == 0x2029 || n == 0x202F || n == 0x205F
    || n == 0x3000
  }

  /** Every character of `s` from index `lo` up to (not including) `hi` is whitespace. */
  predicate SpaceBetween(s: string, lo: nat, hi: nat)
    requires lo <= hi <= |s|
  {
    forall k :: lo <= k < hi ==> IsSpace(s[k])
  }

  /** The first index from `i` on that does not hold whitespace (`|s|` if there is none). */
  function SkipSpaces(s: string, i: nat): (n: nat)
    requires i <= |s|
    ensures i <= n <= |s| && SpaceBetween(s, i, n)
    ensures n < |s| ==> !IsSpace(s[n])
    decreases |s| - i
  {
    if i < |s| && IsSpace(s[i]) then SkipSpaces(s, i + 1) else i
  }

  /** The end of `s[lo..hi]` once its trailing whitespace is dropped. */
  function TrimSpaces(s: string, lo: nat, hi: nat): (n: nat)
    requires lo <= hi <= |s|
    ensures lo <= n <= hi && SpaceBetween(s, n, hi)
    ensures n > lo ==> !IsSpace(s[n - 1])
    decreases hi - lo
  {
    if hi > lo && IsSpace(s[hi - 1]) then TrimSpaces(s, lo, hi - 1) else hi
  }

  /** `s.strip()`: drops leading and trailing whitespace. */
  function Strip(s: string): (r: string)
    ensures |r| <= |s|
    ensures r != [] ==> !IsSpace(r[0]) && !IsSpace(r[|r| - 1])
    ensures r == [] <==> SpaceBetween(s, 0, |s|)
  {
    var i := SkipSpaces(s, 0);
    s[i..TrimSpaces(s, i, |s|)]
  }

  lemma {:induction false} SkipSpacesAt(s: string, from: nat, i: nat)
    requires from <= i <= |s| && SpaceBetween(s, from, i)
    requires i < |s| ==> !IsSpace(s[i])
    ensures SkipSpaces(s, from) == i
    decreases i - from
  {
    if from < i {
      SkipSpacesAt(s, from + 1, i);
    }
  }

  lemma {:induction false} TrimSpacesAt(s: string, lo: nat, hi: nat, j: nat)
    requires lo <= j <= hi <= |s| && SpaceBetween(s, j, hi)
    requires j > lo ==> !IsSpace(s[j - 1])
    ensures TrimSpaces(s, lo, hi) == j
    decreases hi - j
  {
    if j < hi {
      TrimSpacesAt(s, lo, hi - 1, j);
    }
  }

  /** Any way of cutting `s` into whitespace, a piece with non-whitespace ends, and
      whitespace is the one `Strip` finds: the piece is exactly `Strip(s)`. */
  lemma StripUnique(s: string, i: nat, j: nat)
    requires i <= j <= |s|
    requires SpaceBetween(s, 0, i) && SpaceBetween(s, j, |s|)
    requires i < j ==> !IsSpace(s[i]) && !IsSpace(s[j - 1])
    ensures Strip(s) == s[i..j]
  {
    if i == j {
      SkipSpacesAt(s, 0, |s|);
    } else {
      SkipSpacesAt(s, 0, i);
      TrimSpacesAt(s, i, |s|, j);
    }
  }

  /** Stripping twice changes nothing more. */
  lemma StripIdempotent(s: string)
    ensures Strip(Strip(s)) == Strip(s)
  {
    var r := Strip(s);
    StripUnique(r, 0, |r|);
    assert r[0..|r|] == r;
  }

  /** Total length of the pieces. */
  function TotalLength(xs: seq<string>): nat
  {
    if xs == [] then 0 else |xs[0]| + TotalLength(xs[1..])
  }

  /** `sep.join(xs)`: the pieces in order, with `sep` between each neighbouring pair. */
  function Join(sep: string, xs: seq<string>): (r: string)
    ensures xs == [] ==> r == ""
    ensures |xs| == 1 ==> r == xs[0]
  {
    if xs == [] then ""
    else if |xs| == 1 then xs[0]
    else xs[0] + sep + Join(sep, xs[1..])
  }

  /** The joined text is exactly the pieces plus one separator between each neighbouring pair. */
  lemma {:induction false} JoinLength(sep: string, xs: seq<string>)
    ensures |Join(sep, xs)| == TotalLength(xs) + if xs == [] then 0 else (|xs| - 1) * |sep|
    decreases |xs|
  {
    if |xs| > 1 {
      JoinLength(sep, xs[1..]);
      var n := |xs| - 1;
      assert (n - 1) * |sep| + |sep| == n * |sep|;
    }
  }

  /** Where piece `i` starts in `Join(sep, xs)`. */
  function Offset(sep: string, xs: seq<string>, i: nat): nat
    requires i <= |xs|
  {
    if i == 0 then 0 else |xs[0]| + |sep| + Offset(sep, xs[1..], i - 1)
  }

  /** Dropping more than `a` from `a + b` drops the rest from `b`. */
  lemma DropPast(a: string, b: string, k: nat)
    requires |a| <= k <= |a| + |b|
    ensures (a + b)[k..] == b[k - |a|..]
  {
  }

  /** Joining keeps every piece, unchanged and in list order: from where piece `i` starts,
      the joined text is that piece, then (unless it is the last) the separator and the
      join of the pieces after it. */
  lemma {:induction false} JoinFrom(sep: string, xs: seq<string>, i: nat)
    requires i < |xs|
    ensures Offset(sep, xs, i) <= |Join(sep, xs)|
    ensures Join(sep, xs)[Offset(sep, xs, i)..]
         == if i + 1 < |xs| then xs[i] + sep + Join(sep, xs[i + 1..]) else xs[i]
  {
    if i == 0 {
      assert Join(sep, xs)[0..] == Join(sep, xs);
    } else {
      JoinFrom(sep, xs[1..], i - 1);
      var head := xs[0] + sep;
      var rest := Join(sep, xs[1..]);
      var o := Offset(sep, xs[1..], i - 1);
      assert Join(sep, xs) == head + rest;
      DropPast(head, rest, |head| + o);
      assert xs[1..][i - 1] == xs[i];
      assert xs[1..][i..] == xs[i + 1..];
    }
  }

  /** Appending a piece to a non-empty list appends a separator and the piece to the joined text. */
  lemma {:induction false} JoinSnoc(sep: string, xs: seq<string>, y: string)
    requires xs != []
    ensures Join(sep, xs + [y]) == Join(sep, xs) + sep + y
    decreases |xs|
  {
    if |xs| == 1 {
      assert xs + [y] == [xs[0], y];
      assert [xs[0], y][1..] == [y];
    } else {
      assert (xs + [y])[1..] == xs[1..] + [y];
      JoinSnoc(sep, xs[1..], y);
    }
  }

  /** `os.path.basename` on a POSIX path: everything after the last `/`. */
  function Basename(p: string): (r: string)
    ensures |r| <= |p| && r == p[|p| - |r|..]
    ensures '/' !in r
    ensures |r| < |p| ==> p[|p| - |r| - 1] == '/'
  {
    if p == [] || p[|p| - 1] == '/' then ""
    else Basename(p[..|p| - 1]) + [p[|p| - 1]]
  }
}
