/** String predicates with Rust's `str` semantics, and the lexicographic order
    on strings that the key-value store uses to sort its sort keys. */
module Strings {

  /** Rust's `str::starts_with` for a string pattern. */
  predicate StartsWith(s: string, prefix: string) {
    |prefix| <= |s| && s[..|prefix|] == prefix
  }

  /** Rust's `str::ends_with` for a string pattern. */
  predicate EndsWith(s: string, suffix: string) {
    |suffix| <= |s| && s[|s| - |suffix|..] == suffix
  }

  /** `needle` occurs in `s` starting at index `i`. */
  predicate OccursAt(s: string, needle: string, i: int) {
    0 <= i && i + |needle| <= |s| && s[i..i + |needle|] == needle
  }

  /** Rust's `str::contains` for a string pattern, scanning left to right. */
  predicate Contains(s: string, needle: string)
    decreases |s|
  {
    StartsWith(s, needle) || (|s| > 0 && Contains(s[1..], needle))
  }

  /** `Contains` holds exactly when the pattern occurs at some index. */
  lemma {:induction false} ContainsIffOccurs(s: string, needle: string)
    ensures Contains(s, needle) <==> exists i :: OccursAt(s, needle, i)
    decreases |s|
  {
    if StartsWith(s, needle) {
      assert OccursAt(s, needle, 0);
    } else if |s| > 0 {
      ContainsIffOccurs(s[1..], needle);
      if Contains(s[1..], needle) {
        var i :| OccursAt(s[1..], needle, i);
        assert s[1..][i..i + |needle|] == s[i + 1..i + 1 + |needle|];
        assert OccursAt(s, needle, i + 1);
      }
      if i :| OccursAt(s, needle, i) {
        assert i != 0;
        assert s[1..][i - 1..i - 1 + |needle|] == s[i..i + |needle|];
        assert OccursAt(s[1..], needle, i - 1);
      }
    }
  }

  lemma ContainsAppendRight(s: string, t: string, needle: string)
    requires Contains(s, needle)
    ensures Contains(s + t, needle)
  {
    ContainsIffOccurs(s, needle);
    var i :| OccursAt(s, needle, i);
    assert (s + t)[i..i + |needle|] == s[i..i + |needle|];
    assert OccursAt(s + t, needle, i);
    ContainsIffOccurs(s + t, needle);
  }

  /** A text that contains a pattern contains every prefix of it. */
  lemma ContainsPrefixOf(s: string, needle: string, more: string)
    requires Contains(s, needle + more)
    ensures Contains(s, needle)
  {
    ContainsIffOccurs(s, needle + more);
    var i :| OccursAt(s, needle + more, i);
    assert s[i..i + |needle|] == (needle + more)[..|needle|];
    assert OccursAt(s, needle, i);
    ContainsIffOccurs(s, needle);
  }

  /** Rust's `char::is_whitespace`: the Unicode White_Space property. */
  predicate IsWhitespace(c: char) {
    var n := c as int;
    (0x09 <= n <= 0x0D) || n == 0x20 || n == 0x85 || n == 0xA0 || n == 0x1680
    || (0x2000 <= n <= 0x200A) || n == 0x2028 || n == 0x2029 || n == 0x202F
    || n == 0x205F || n == 0x3000
  }

  /** Rust's `str::trim_start`. */
  function TrimStart(s: string): (r: string)
    ensures |r| <= |s| && r == s[|s| - |r|..]
    ensures forall i :: 0 <= i < |s| - |r| ==> IsWhitespace(s[i])
    ensures |r| > 0 ==> !IsWhitespace(r[0])
    decreases |s|
  {
    if |s| > 0 && IsWhitespace(s[0]) then TrimStart(s[1..]) else s
  }

  /** Rust's `str::trim_end`. */
  function TrimEnd(s: string): (r: string)
    ensures |r| <= |s| && r == s[..|r|]
    ensures forall i :: |r| <= i < |s| ==> IsWhitespace(s[i])
    ensures |r| > 0 ==> !IsWhitespace(r[|r| - 1])
    decreases |s|
  {
    if |s| > 0 && IsWhitespace(s[|s| - 1]) then TrimEnd(s[..|s| - 1]) else s
  }

  /** Rust's `str::trim`. */
  function Trim(s: string): string {
    TrimEnd(TrimStart(s))
  }

  /** The trimmed text starts with a non-whitespace `c` exactly when the first
      non-whitespace character of the untrimmed text is `c`. */
  lemma TrimStartsWith(s: string, c: char)
    requires !IsWhitespace(c)
    ensures StartsWith(Trim(s), [c]) <==> StartsWith(TrimStart(s), [c])
  {
    var u := TrimStart(s);
    var r := TrimEnd(u);
    if |u| > 0 && u[0] == c {
      assert |r| > 0;
      assert r[0] == u[0];
    }
    if |r| > 0 {
      assert r[0] == u[0];
    }
  }

  /** Strict lexicographic order on code points. UTF-8 preserves code point
      order, so this is also the byte order the store compares keys by. */
  predicate Below(a: string, b: string)
    decreases |a|
  {
    if |a| == 0 then |b| > 0
    else |b| > 0 && (a[0] < b[0] || (a[0] == b[0] && Below(a[1..], b[1..])))
  }

  lemma {:induction false} BelowIrreflexive(a: string)
    ensures !Below(a, a)
    decreases |a|
  {
    if |a| > 0 {
      BelowIrreflexive(a[1..]);
    }
  }

  lemma {:induction false} BelowAsymmetric(a: string, b: string)
    ensures !(Below(a, b) && Below(b, a))
    decreases |a|
  {
    if |a| > 0 && |b| > 0 && a[0] == b[0] {
      BelowAsymmetric(a[1..], b[1..]);
    }
  }

  lemma {:induction false} BelowTransitive(a: string, b: string, c: string)
    requires Below(a, b) && Below(b, c)
    ensures Below(a, c)
    decreases |a|
  {
    if |a| > 0 && a[0] == b[0] && b[0] == c[0] {
      BelowTransitive(a[1..], b[1..], c[1..]);
    }
  }

  lemma {:induction false} BelowTotal(a: string, b: string)
    ensures a == b || Below(a, b) || Below(b, a)
    decreases |a|
  {
    if |a| > 0 && |b| > 0 && a[0] == b[0] {
      BelowTotal(a[1..], b[1..]);
      if a[1..] == b[1..] {
        assert a == [a[0]] + a[1..] && b == [b[0]] + b[1..];
      }
    }
  }

  /** A common prefix does not change the order. */
  lemma {:induction false} BelowCommonPrefix(p: string, x: string, y: string)
    ensures Below(p + x, p + y) <==> Below(x, y)
    decreases |p|
  {
    if |p| > 0 {
      assert (p + x)[1..] == p[1..] + x;
      assert (p + y)[1..] == p[1..] + y;
      BelowCommonPrefix(p[1..], x, y);
    } else {
      assert p + x == x && p + y == y;
    }
  }

  /** Two strings whose equal-length heads already differ are ordered by their heads. */
  lemma {:induction false} BelowByHead(p: string, q: string, x: string, y: string)
    requires |p| == |q| && Below(p, q)
    ensures Below(p + x, q + y)
    decreases |p|
  {
    assert |p| > 0;
    if p[0] == q[0] {
      assert (p + x)[1..] == p[1..] + x;
      assert (q + y)[1..] == q[1..] + y;
      BelowByHead(p[1..], q[1..], x, y);
    }
  }

  /** Extending two equal-length strings by one character each: the old order
      decides, and only a tie falls through to the new characters. */
  lemma {:induction false} BelowSnoc(x: string, y: string, c: char, d: char)
    requires |x| == |y|
    ensures Below(x + [c], y + [d]) <==> Below(x, y) || (x == y && c < d)
    decreases |x|
  {
    if |x| > 0 {
      assert (x + [c])[1..] == x[1..] + [c];
      assert (y + [d])[1..] == y[1..] + [d];
      BelowSnoc(x[1..], y[1..], c, d);
      if x[0] == y[0] && x[1..] == y[1..] {
        assert x == [x[0]] + x[1..] && y == [y[0]] + y[1..];
      }
    } else {
      assert x + [c] == [c] && y + [d] == [d];
    }
  }

  /** Every string lying strictly between two strings with a common prefix has that prefix. */
  lemma {:induction false} BetweenSharesPrefix(p: string, x: string, y: string, z: string)
    requires Below(p + x, z) && Below(z, p + y)
    ensures StartsWith(z, p)
    decreases |p|
  {
    if |p| > 0 {
      assert (p + x)[0] == p[0] && (p + y)[0] == p[0];
      assert |z| > 0;
      if z[0] != p[0] {
        BelowAsymmetric(z, p + y);
        assert false;
      }
      assert (p + x)[1..] == p[1..] + x;
      assert (p + y)[1..] == p[1..] + y;
      BetweenSharesPrefix(p[1..], x, y, z[1..]);
      assert z == [z[0]] + z[1..];
    }
  }

  /** `m` precedes every other element of `s`. */
  predicate IsLeast(m: string, s: set<string>) {
    forall x :: x in s && x != m ==> Below(m, x)
  }

  lemma {:induction false} LeastExists(s: set<string>)
    requires s != {}
    ensures exists m :: m in s && IsLeast(m, s)
    decreases |s|
  {
    var x :| x in s;
    if s == {x} {
      assert IsLeast(x, s);
    } else {
      var rest := s - {x};
      LeastExists(rest);
      var m :| m in rest && IsLeast(m, rest);
      BelowTotal(m, x);
      if Below(m, x) {
        assert IsLeast(m, s);
      } else {
        forall y | y in s && y != x
          ensures Below(x, y)
        {
          if y != m {
            BelowTransitive(x, m, y);
          }
        }
        assert IsLeast(x, s);
      }
    }
  }

  lemma LeastUnique(s: set<string>)
    ensures forall a, b :: a in s && IsLeast(a, s) && b in s && IsLeast(b, s) ==> a == b
  {
    forall a, b | a in s && IsLeast(a, s) && b in s && IsLeast(b, s)
      ensures a == b
    {
      if a != b {
        BelowAsymmetric(a, b);
      }
    }
  }

  /** The least element of a non-empty finite set of strings. */
  function Least(s: set<string>): (m: string)
    requires s != {}
    ensures m in s && IsLeast(m, s)
  {
    LeastExists(s);
    LeastUnique(s);
    var m :| m in s && IsLeast(m, s);
    m
  }

  /** The elements of `s` in ascending order: how the store returns a range of sort keys. */
  function Ascending(s: set<string>): (r: seq<string>)
    ensures |r| == |s|
    ensures forall x :: x in s <==> x in r
    ensures forall i, j :: 0 <= i < j < |r| ==> Below(r[i], r[j])
    decreases |s|
  {
    if s == {} then []
    else
      var m := Least(s);
      [m] + Ascending(s - {m})
  }

  /** Rust's `Vec::truncate` (and the store's `Limit`): keep at most `n` leading elements. */
  function Take<T>(xs: seq<T>, n: nat): (r: seq<T>)
    ensures |r| == if n < |xs| then n else |xs|
    ensures r == xs[..|r|]
  {
    if n < |xs| then xs[..n] else xs
  }
}
