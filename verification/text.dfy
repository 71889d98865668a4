/**
 * Python's `str.strip()` with no argument: removes leading and trailing
 * whitespace, where whitespace is what `str.isspace` accepts.
 */
module Text {

  /**
   * `str.isspace` on a single character, listed by code point. Within ASCII it
   * is exactly space, tab, line feed, vertical tab, form feed, carriage return
   * and the four information separators.
   */
  predicate IsSpace(c: char)
    ensures c as int < 0x80 ==>
      (IsSpace(c) <==> c in {' ', '\t', '\n', '\U{000B}', '\U{000C}', '\r', '\U{001C}', '\U{001D}', '\U{001E}', '\U{001F}'})
  {
    var n := c as int;
    (0x09 <= n <= 0x0D) || (0x1C <= n <= 0x20) || n == 0x85 || n == 0xA0 || n == 0x1680 ||
    (0x2000 <= n <= 0x200A) || n == 0x2028 || n == 0x2029 || n == 0x202F || n == 0x205F || n == 0x3000
  }

  predicate AllSpace(s: string) {
    forall k :: 0 <= k < |s| ==> IsSpace(s[k])
  }

  /** Neither starts nor ends with whitespace. */
  predicate Tight(t: string) {
    t == [] || (!IsSpace(t[0]) && !IsSpace(t[|t| - 1]))
  }

  /**
   * `t` is what is left of `s` after cutting the whitespace prefix `s[..i]` and
   * a whitespace suffix, and `t` itself has no whitespace at either end.
   */
  predicate StripAt(t: string, s: string, i: int) {
    0 <= i <= |s| - |t| && s[i..i + |t|] == t && AllSpace(s[..i]) && AllSpace(s[i + |t|..]) && Tight(t)
  }

  /** Independent description of stripping: `t` is `s` cut as `StripAt` says, at some offset. */
  ghost predicate IsStripOf(t: string, s: string) {
    exists i :: StripAt(t, s, i)
  }

  /** `str.lstrip()`: drops the leading whitespace, keeping a suffix of `s`. */
  function TrimLeft(s: string): (r: string)
    ensures |r| <= |s| && r == s[|s| - |r|..]
    ensures AllSpace(s[..|s| - |r|])
    ensures r == [] || !IsSpace(r[0])
  {
    if s == [] || !IsSpace(s[0]) then s else TrimLeft(s[1..])
  }

  /** `str.rstrip()`: drops the trailing whitespace, keeping a prefix of `s`. */
  function TrimRight(s: string): (r: string)
    ensures |r| <= |s| && r == s[..|r|]
    ensures AllSpace(s[|r|..])
    ensures r == [] || !IsSpace(r[|r| - 1])
  {
    if s == [] || !IsSpace(s[|s| - 1]) then s else TrimRight(s[..|s| - 1])
  }

  /** `str.strip()`: empty exactly when `s` is all whitespace. */
  function Strip(s: string): (r: string)
    ensures |r| <= |s| && Tight(r)
    ensures r == [] <==> AllSpace(s)
  {
    var l := TrimLeft(s);
    assert l == [] ==> AllSpace(s) by {
      if l == [] { assert s[..|s|] == s; }
    }
    assert l != [] ==> !IsSpace(s[|s| - |l|]);
    TrimRight(l)
  }

  /** `Strip` meets the independent description. */
  lemma StripIsStripOf(s: string)
    ensures IsStripOf(Strip(s), s)
  {
    var l := TrimLeft(s);
    var r := TrimRight(l);
    var i := |s| - |l|;
    assert s[i..i + |r|] == l[..|r|] == r;
    assert s[i + |r|..] == l[|r|..];
    assert StripAt(r, s, i);
  }

  /** An empty cut leaves only whitespace behind: all of `s` is whitespace. */
  lemma EmptyCut(s: string, i: int)
    requires StripAt([], s, i)
    ensures AllSpace(s)
  {
    forall k | 0 <= k < |s| ensures IsSpace(s[k]) {
      if k < i { assert s[..i][k] == s[k]; } else { assert s[i..][k - i] == s[k]; }
    }
  }

  /** Two non-empty cuts of the same string start and end at the same place. */
  lemma SameCut(t: string, u: string, s: string, i: int, j: int)
    requires StripAt(t, s, i) && StripAt(u, s, j) && t != [] && u != []
    ensures i == j && |t| == |u|
  {
    assert !IsSpace(s[i]) && !IsSpace(s[i + |t| - 1]) by {
      assert s[i] == t[0] && s[i + |t| - 1] == t[|t| - 1];
    }
    assert !IsSpace(s[j]) && !IsSpace(s[j + |u| - 1]) by {
      assert s[j] == u[0] && s[j + |u| - 1] == u[|u| - 1];
    }
  }

  /** The description determines the result: whatever satisfies it is `Strip(s)`. */
  lemma StripUnique(t: string, s: string)
    requires IsStripOf(t, s)
    ensures t == Strip(s)
  {
    StripIsStripOf(s);
    var u := Strip(s);
    var i :| StripAt(t, s, i);
    var j :| StripAt(u, s, j);
    if t == [] {
      EmptyCut(s, i);
    } else if u != [] {
      SameCut(t, u, s, i, j);
    }
  }

  /** A string with no whitespace at either end is left as it is. */
  lemma StripTight(t: string)
    requires Tight(t)
    ensures Strip(t) == t
  {
    assert t[0..0 + |t|] == t && t[..0] == [] && t[0 + |t|..] == [];
    assert StripAt(t, t, 0);
    StripUnique(t, t);
  }

  /** Stripping twice changes nothing more. */
  lemma StripIdempotent(s: string)
    ensures Strip(Strip(s)) == Strip(s)
  {
    StripTight(Strip(s));
  }
}
