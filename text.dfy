/**
 * The few Python string operations the template filters use: substring
 * search (`in`), `split(sep)[0]` and `split(sep)[1]`, `strip()` and `upper()`.
 */
module Text {
  import opened Wrappers

  /** `pat` occurs in `s` starting at index `i`. */
  predicate Occurs(s: string, pat: string, i: int)
  {
    0 <= i && i + |pat| <= |s| && s[i..i + |pat|] == pat
  }

  lemma OccursShift(s: string, pat: string, k: int)
    requires |s| > 0 && k >= 0
    ensures Occurs(s[1..], pat, k) <==> Occurs(s, pat, k + 1)
  {
    if k + |pat| <= |s| - 1 {
      assert s[1..][k..k + |pat|] == s[k + 1..k + 1 + |pat|];
    }
  }

  /** The index of the first occurrence of `pat` in `s`, if any. */
  function Find(s: string, pat: string): (r: Option<nat>)
    ensures r.Some? ==> Occurs(s, pat, r.value)
    ensures r.Some? ==> forall k | 0 <= k < r.value :: !Occurs(s, pat, k)
    ensures r.None? ==> forall k :: !Occurs(s, pat, k)
    decreases |s|
  {
    if |s| < |pat| then None
    else if s[..|pat|] == pat then Some(0)
    else
      assert !Occurs(s, pat, 0);
      assert forall k | k >= 1 :: Occurs(s, pat, k) <==> Occurs(s[1..], pat, k - 1) by {
        forall k | k >= 1 ensures Occurs(s, pat, k) <==> Occurs(s[1..], pat, k - 1) {
          OccursShift(s, pat, k - 1);
        }
      }
      match Find(s[1..], pat)
      case None => None
      case Some(k) => Some(k + 1)
  }

  /** Python's `pat in s`. */
  predicate Contains(s: string, pat: string)
  {
    Find(s, pat).Some?
  }

  /** An occurrence of `inner` inside an occurrence of `outer` is an occurrence in `s`. */
  lemma {:induction false} ContainsWithin(s: string, outer: string, inner: string)
    requires Contains(s, outer) && Contains(outer, inner)
    ensures Contains(s, inner)
  {
    var i := Find(s, outer).value;
    var k := Find(outer, inner).value;
    forall m | 0 <= m < |inner| ensures s[i + k + m] == inner[m] {
      assert outer[k + m] == inner[m];
      assert s[i + (k + m)] == outer[k + m];
    }
    assert s[i + k..i + k + |inner|] == inner;
    assert Occurs(s, inner, i + k);
  }

  /** Python's `s.split(sep)[0]`: the text before the first `sep`, or all of `s`. */
  function Before(s: string, sep: string): (r: string)
    requires sep != ""
    ensures |r| <= |s| && r == s[..|r|]
    ensures forall k :: !Occurs(r, sep, k)
    ensures forall k | 0 <= k < |r| :: !Occurs(s, sep, k)
    ensures Contains(s, sep) ==> Occurs(s, sep, |r|)
    ensures !Contains(s, sep) ==> r == s
  {
    match Find(s, sep)
    case None => s
    case Some(i) =>
      assert forall k | Occurs(s[..i], sep, k) :: Occurs(s, sep, k) by {
        forall k | Occurs(s[..i], sep, k) ensures Occurs(s, sep, k) {
          assert s[..i][k..k + |sep|] == s[k..k + |sep|];
        }
      }
      s[..i]
  }

  /** The text after the first `sep`. */
  function After(s: string, sep: string): (r: string)
    requires Contains(s, sep)
    ensures |r| + |sep| <= |s| && r == s[|s| - |r|..]
    ensures Occurs(s, sep, |s| - |r| - |sep|)
    ensures forall k | 0 <= k < |s| - |r| - |sep| :: !Occurs(s, sep, k)
  {
    var i := Find(s, sep).value;
    s[i + |sep|..]
  }

  /**
   * Python's `s.split(sep)[1]` where `sep` occurs in `s`: the text from the
   * end of the first occurrence of `sep` up to the next occurrence, or to the
   * end of `s`.
   */
  function Segment(s: string, sep: string): (r: string)
    requires sep != "" && Contains(s, sep)
    ensures forall k :: !Occurs(r, sep, k)
    ensures var j := Find(s, sep).value + |sep|;
      && j + |r| <= |s| && r == s[j..j + |r|]
      && (forall k | j <= k < j + |r| :: !Occurs(s, sep, k))
      && (j + |r| == |s| || Occurs(s, sep, j + |r|))
  {
    var j := Find(s, sep).value + |sep|;
    var rest := After(s, sep);
    var r := Before(rest, sep);
    SegmentParts(s, sep, j, rest, r);
    r
  }

  /** The piece cut from a suffix of `s`, read back in `s` itself. */
  lemma SegmentParts(s: string, sep: string, j: int, rest: string, r: string)
    requires 0 <= j <= |s| && rest == s[j..]
    requires |r| <= |rest| && r == rest[..|r|]
    requires forall k | 0 <= k < |r| :: !Occurs(rest, sep, k)
    requires |r| == |rest| || Occurs(rest, sep, |r|)
    ensures j + |r| <= |s| && r == s[j..j + |r|]
    ensures forall k | j <= k < j + |r| :: !Occurs(s, sep, k)
    ensures j + |r| == |s| || Occurs(s, sep, j + |r|)
  {
    forall k | j <= k < j + |r| ensures !Occurs(s, sep, k) {
      OccursSuffix(s, j, sep, k - j);
    }
    OccursSuffix(s, j, sep, |r|);
  }

  /** An occurrence in a suffix is an occurrence in the whole string, shifted. */
  lemma OccursSuffix(s: string, j: int, pat: string, k: int)
    requires 0 <= j <= |s| && k >= 0
    ensures Occurs(s[j..], pat, k) <==> Occurs(s, pat, j + k)
  {
    if j + k + |pat| <= |s| {
      assert s[j..][k..k + |pat|] == s[j + k..j + k + |pat|];
    }
  }

  /**
   * `id` is `rest` cut at its first character from `stops`: a prefix of
   * `rest` holding none of them, followed by one of them or by the end.
   */
  predicate CutAt(rest: string, id: string, stops: set<char>)
  {
    && |id| <= |rest| && id == rest[..|id|]
    && (forall k | 0 <= k < |id| :: id[k] !in stops)
    && (|id| == |rest| || rest[|id|] in stops)
  }

  /** A cut is determined by the text and the stop characters. */
  lemma CutUnique(rest: string, a: string, b: string, stops: set<char>)
    requires CutAt(rest, a, stops) && CutAt(rest, b, stops)
    ensures a == b
  {
  }

  /** `Before` with a one-character separator is a cut at that character. */
  lemma BeforeChar(s: string, c: char)
    ensures CutAt(s, Before(s, [c]), {c})
  {
    var r := Before(s, [c]);
    forall k | 0 <= k < |r| ensures r[k] != c {
      assert !Occurs(r, [c], k);
      assert r[k..k + 1] == [r[k]];
    }
    if |r| < |s| {
      assert Occurs(s, [c], |r|);
      assert s[|r|..|r| + 1] == [c];
    }
  }

  /** Cutting at `c` and then at `d` is cutting at the first of either. */
  lemma BeforeTwoChars(s: string, c: char, d: char)
    ensures CutAt(s, Before(Before(s, [c]), [d]), {c, d})
  {
    var r1 := Before(s, [c]);
    var r2 := Before(r1, [d]);
    BeforeChar(s, c);
    BeforeChar(r1, d);
    if |r2| < |s| {
      if |r2| == |r1| {
        assert s[|r2|] == c;
      } else {
        assert r1[|r2|] == d;
      }
    }
  }

  /** The characters Python's `str.strip()` removes. */
  predicate IsSpace(c: char)
  {
    || c == ' ' || c == '\t' || c == '\n' || c == '\r'
    || c == '\U{000B}' || c == '\U{000C}'
    || c == '\U{001C}' || c == '\U{001D}' || c == '\U{001E}' || c == '\U{001F}'
    || c == '\U{0085}' || c == '\U{00A0}' || c == '\U{1680}'
    || ('\U{2000}' <= c <= '\U{200A}')
    || c == '\U{2028}' || c == '\U{2029}' || c == '\U{202F}' || c == '\U{205F}' || c == '\U{3000}'
  }

  predicate AllSpace(s: string)
  {
    forall k | 0 <= k < |s| :: IsSpace(s[k])
  }

  /** `s` without its leading white space. */
  function TrimStart(s: string): (r: string)
    ensures |r| <= |s| && r == s[|s| - |r|..]
    ensures AllSpace(s[..|s| - |r|])
    ensures r == [] || !IsSpace(r[0])
  {
    if s != [] && IsSpace(s[0]) then
      var r := TrimStart(s[1..]);
      assert s[..|s| - |r|] == [s[0]] + s[1..][..|s| - 1 - |r|];
      r
    else s
  }

  /** `s` without its trailing white space. */
  function TrimEnd(s: string): (r: string)
    ensures |r| <= |s| && r == s[..|r|]
    ensures AllSpace(s[|r|..])
    ensures r == [] || !IsSpace(r[|r| - 1])
  {
    if s != [] && IsSpace(s[|s| - 1]) then
      var r := TrimEnd(s[..|s| - 1]);
      assert s[|r|..] == s[..|s| - 1][|r|..] + [s[|s| - 1]];
      r
    else s
  }

  /** `r` is the slice of `s` at `i`, with only white space around it. */
  predicate SpaceFramed(s: string, i: int, r: string)
  {
    0 <= i && i + |r| <= |s| && r == s[i..i + |r|] && AllSpace(s[..i]) && AllSpace(s[i + |r|..])
  }

  /** Python's `s.strip()`. */
  function Strip(s: string): (r: string)
    ensures r == [] || (!IsSpace(r[0]) && !IsSpace(r[|r| - 1]))
    ensures r == [] <==> AllSpace(s)
    ensures exists i :: SpaceFramed(s, i, r)
  {
    var t := TrimStart(s);
    var r := TrimEnd(t);
    StripParts(s, t, r);
    r
  }

  /**
   * Trimming white space at the front and then at the back keeps a slice of
   * `s`, which is empty exactly when `s` is all white space.
   */
  lemma StripParts(s: string, t: string, r: string)
    requires |t| <= |s| && t == s[|s| - |t|..] && AllSpace(s[..|s| - |t|])
    requires t == [] || !IsSpace(t[0])
    requires |r| <= |t| && r == t[..|r|] && AllSpace(t[|r|..])
    requires r == [] || !IsSpace(r[|r| - 1])
    ensures exists i :: SpaceFramed(s, i, r)
    ensures r == [] || !IsSpace(r[0])
    ensures r == [] <==> AllSpace(s)
  {
    var i := |s| - |t|;
    assert s[i + |r|..] == t[|r|..];
    assert s == s[..i] + t;
    AllSpaceConcat(s[..i], t);
    assert SpaceFramed(s, i, r);
    if r != [] {
      assert r[0] == t[0];
    } else {
      assert t[|r|..] == t;
    }
  }

  lemma AllSpaceConcat(a: string, b: string)
    ensures AllSpace(a + b) <==> AllSpace(a) && AllSpace(b)
  {
    if AllSpace(a) && AllSpace(b) {
      forall k | 0 <= k < |a + b| ensures IsSpace((a + b)[k]) {
        if k >= |a| { assert (a + b)[k] == b[k - |a|]; }
      }
    }
    if AllSpace(a + b) {
      forall k | 0 <= k < |b| ensures IsSpace(b[k]) {
        assert (a + b)[|a| + k] == b[k];
      }
      forall k | 0 <= k < |a| ensures IsSpace(a[k]) {
        assert (a + b)[k] == a[k];
      }
    }
  }

  /** White space around a string does not survive `strip()`. */
  lemma {:induction false} StripPadded(a: string, s: string, b: string)
    requires AllSpace(a) && AllSpace(b)
    ensures Strip(a + s + b) == Strip(s)
  {
    calc {
      Strip(a + s + b);
      TrimEnd(TrimStart(a + s + b));
      { assert a + s + b == a + (s + b); TrimStartPadded(a, s + b); }
      TrimEnd(TrimStart(s + b));
      { TrimStartAppend(s, b); }
      TrimEnd(TrimStart(s) + b);
      { TrimEndPadded(TrimStart(s), b); }
      TrimEnd(TrimStart(s));
      Strip(s);
    }
  }

  lemma {:induction false} TrimStartPadded(a: string, s: string)
    requires AllSpace(a)
    ensures TrimStart(a + s) == TrimStart(s)
    decreases |a|
  {
    if a != [] {
      assert (a + s)[1..] == a[1..] + s;
      TrimStartPadded(a[1..], s);
    } else {
      assert a + s == s;
    }
  }

  lemma {:induction false} TrimEndPadded(s: string, b: string)
    requires AllSpace(b)
    ensures TrimEnd(s + b) == TrimEnd(s)
    decreases |b|
  {
    if b != [] {
      assert (s + b)[..|s + b| - 1] == s + b[..|b| - 1];
      TrimEndPadded(s, b[..|b| - 1]);
    } else {
      assert s + b == s;
    }
  }

  /** Trimming the front of `s + b` trims the front of `s`, unless `s` is all white space. */
  lemma {:induction false} TrimStartAppend(s: string, b: string)
    requires AllSpace(b)
    ensures TrimEnd(TrimStart(s + b)) == TrimEnd(TrimStart(s) + b)
    decreases |s|
  {
    if s != [] && IsSpace(s[0]) {
      assert (s + b)[1..] == s[1..] + b;
      TrimStartAppend(s[1..], b);
    } else if s == [] {
      assert s + b == b;
      TrimEndPadded([], b);
      TrimStartAll(b);
    }
  }

  lemma {:induction false} TrimStartAll(b: string)
    requires AllSpace(b)
    ensures TrimStart(b) == []
    decreases |b|
  {
    if b != [] {
      TrimStartAll(b[1..]);
    }
  }

  /** Python's `str.upper()` on one character (ASCII letters only). */
  function UpperChar(c: char): (u: char)
    ensures 'a' <= c <= 'z' ==> 'A' <= u <= 'Z' && u as int == c as int - 32
    ensures !('a' <= c <= 'z') ==> u == c
    ensures IsSpace(u) <==> IsSpace(c)
  {
    if 'a' <= c <= 'z' then (c as int - 32) as char else c
  }

  /** Python's `str.upper()`. */
  function Upper(s: string): (r: string)
    ensures |r| == |s|
    ensures forall k | 0 <= k < |s| :: r[k] == UpperChar(s[k])
  {
    seq(|s|, k requires 0 <= k < |s| => UpperChar(s[k]))
  }
}
