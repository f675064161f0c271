/**
 * C strings over byte buffers: the NUL-terminated view of a buffer, `strlen`
 * and `strstr` (ISO C11 sections 7.24.6.3 and 7.24.5.7). A C `char` is
 * modelled as a Dafny `char`.
 */
module CString {
  import opened Wrappers

  const NUL: char := '\0'

  /** The C-string view of a buffer: the characters before its first NUL (all of them when there is none). */
  function CView(s: seq<char>): (v: seq<char>)
    ensures |v| <= |s| && v == s[..|v|]
    ensures NUL !in v
    ensures |v| < |s| ==> s[|v|] == NUL
  {
    if s == [] || s[0] == NUL then [] else [s[0]] + CView(s[1..])
  }

  /** The view is determined by the position of the first NUL. */
  lemma {:induction false} CViewAtFirstNul(s: seq<char>, k: nat)
    requires k <= |s| && NUL !in s[..k]
    requires k < |s| ==> s[k] == NUL
    ensures CView(s) == s[..k]
  {
    if k > 0 {
      assert s[0] == s[..k][0];
      assert NUL !in s[1..][..k - 1] by { assert s[1..][..k - 1] == s[..k][1..]; }
      CViewAtFirstNul(s[1..], k - 1);
      assert s[..k] == [s[0]] + s[1..][..k - 1];
    }
  }

  /** Whatever follows the first NUL is invisible to the view. */
  lemma {:induction false} CViewStopsAtNul(a: seq<char>, b: seq<char>)
    ensures CView(a + [NUL] + b) == CView(a)
  {
    if a != [] && a[0] != NUL {
      assert (a + [NUL] + b)[1..] == a[1..] + [NUL] + b;
      CViewStopsAtNul(a[1..], b);
    }
  }

  /** A buffer without NUL is its own view. */
  lemma {:induction false} CViewOfPlain(a: seq<char>)
    requires NUL !in a
    ensures CView(a) == a
  {
    CViewAtFirstNul(a, |a|);
  }

  /** `needle` occurs in `hay` starting at index `i`. */
  predicate MatchesAt(hay: seq<char>, needle: seq<char>, i: nat)
  {
    i + |needle| <= |hay| && hay[i..i + |needle|] == needle
  }

  /** `needle` is a substring of `hay`. */
  predicate Occurs(hay: seq<char>, needle: seq<char>)
  {
    exists i | 0 <= i <= |hay| - |needle| :: MatchesAt(hay, needle, i)
  }

  /** A piece placed anywhere inside a text occurs in it. */
  lemma OccursInside(pre: seq<char>, mid: seq<char>, post: seq<char>)
    ensures Occurs(pre + mid + post, mid)
  {
    assert (pre + mid + post)[|pre|..|pre| + |mid|] == mid;
    assert MatchesAt(pre + mid + post, mid, |pre|);
  }

  /** A text occurs in itself. */
  lemma OccursSelf(needle: seq<char>)
    ensures Occurs(needle, needle)
  {
    assert MatchesAt(needle, needle, 0);
  }

  /** An occurrence survives text appended after it. */
  lemma OccursBefore(p: seq<char>, q: seq<char>, needle: seq<char>)
    requires Occurs(p, needle)
    ensures Occurs(p + q, needle)
  {
    var i :| 0 <= i <= |p| - |needle| && MatchesAt(p, needle, i);
    assert (p + q)[i..i + |needle|] == p[i..i + |needle|];
    assert MatchesAt(p + q, needle, i);
  }

  /** An occurrence survives text prepended before it. */
  lemma OccursAfter(p: seq<char>, q: seq<char>, needle: seq<char>)
    requires Occurs(q, needle)
    ensures Occurs(p + q, needle)
  {
    var i :| 0 <= i <= |q| - |needle| && MatchesAt(q, needle, i);
    assert (p + q)[|p| + i..|p| + i + |needle|] == q[i..i + |needle|];
    assert MatchesAt(p + q, needle, |p| + i);
  }

  /** A part of an occurring text occurs too. */
  lemma OccursPart(hay: seq<char>, x: seq<char>, y: seq<char>, z: seq<char>)
    requires Occurs(hay, x + y + z)
    ensures Occurs(hay, y)
  {
    var needle := x + y + z;
    var i :| 0 <= i <= |hay| - |needle| && MatchesAt(hay, needle, i);
    forall j | i + |x| <= j < i + |x| + |y| ensures hay[j] == y[j - i - |x|] {
      assert hay[i..i + |needle|][j - i] == hay[j];
      assert needle[j - i] == y[j - i - |x|];
    }
    assert hay[i + |x|..i + |x| + |y|] == y;
    assert MatchesAt(hay, y, i + |x|);
  }

  /** Two adjacent parts of an occurring text occur together. */
  lemma OccursParts(hay: seq<char>, w: seq<char>, x: seq<char>, y: seq<char>, z: seq<char>)
    requires Occurs(hay, w + x + y + z)
    ensures Occurs(hay, x + y)
  {
    assert w + x + y + z == w + (x + y) + z;
    OccursPart(hay, w, x + y, z);
  }

  /** `memcpy(dst, src, |src|)`: the first |src| bytes of `dst` become `src`, the rest is untouched. */
  method Memcpy(dst: array<char>, src: seq<char>)
    requires |src| <= dst.Length
    modifies dst
    ensures dst[..|src|] == src
    ensures dst[|src|..] == old(dst[|src|..])
  {
    var i := 0;
    while i < |src|
      invariant 0 <= i <= |src|
      invariant dst[..i] == src[..i]
      invariant dst[|src|..] == old(dst[|src|..])
    {
      dst[i] := src[i];
      assert dst[..i + 1] == dst[..i] + [src[i]];
      i := i + 1;
    }
  }

  /** `strlen`: the index of the terminating NUL, which is the length of the view. */
  method StrLen(buf: array<char>) returns (n: nat)
    requires NUL in buf[..]
    ensures n < buf.Length && buf[n] == NUL
    ensures buf[..n] == CView(buf[..])
  {
    n := 0;
    while buf[n] != NUL
      invariant n < buf.Length
      invariant NUL !in buf[..n]
      invariant NUL in buf[n..]
      decreases buf.Length - n
    {
      assert buf[n..] == [buf[n]] + buf[n + 1..];
      assert buf[..n + 1] == buf[..n] + [buf[n]];
      n := n + 1;
    }
    CViewAtFirstNul(buf[..], n);
  }

  /**
   * `strstr`: the offset of the first occurrence of `needle` in the C string
   * held by `hay`, or None (the NULL pointer) when there is none.
   */
  method StrStr(hay: array<char>, needle: seq<char>) returns (pos: Option<nat>)
    requires NUL in hay[..]
    ensures pos.Some? <==> Occurs(CView(hay[..]), needle)
    ensures pos.Some? ==> MatchesAt(CView(hay[..]), needle, pos.value)
    ensures pos.Some? ==> forall k :: 0 <= k < pos.value ==> !MatchesAt(CView(hay[..]), needle, k)
  {
    var n := StrLen(hay);
    ghost var view := CView(hay[..]);
    var i := 0;
    while i + |needle| <= n
      invariant i <= n + 1
      invariant forall k :: 0 <= k < i ==> !MatchesAt(view, needle, k)
    {
      if hay[i..i + |needle|] == needle {
        assert view[i..i + |needle|] == hay[i..i + |needle|];
        assert MatchesAt(view, needle, i);
        return Some(i);
      }
      assert view[i..i + |needle|] == hay[i..i + |needle|];
      i := i + 1;
    }
    return None;
  }
}
