/**
 * The string operations of the JavaScript runtime that the library relies on:
 * `endsWith`, `startsWith`, `replace` with a literal pattern anchored at the end
 * (`/x$/u`), and `trim`. Strings are sequences of Unicode code points, which is
 * what the `u` flag makes the regular expressions work on.
 */
module Text {

  predicate StartsWith(s: string, prefix: string) {
    |prefix| <= |s| && s[..|prefix|] == prefix
  }

  predicate EndsWith(s: string, suffix: string) {
    |suffix| <= |s| && s[|s| - |suffix|..] == suffix
  }

  /**
   * `s.replace(/suffix$/u, rep)` for a pattern that is a literal string:
   * the only place such a pattern can match is the very end of `s`.
   */
  function ReplaceSuffix(s: string, suffix: string, rep: string): (r: string)
    ensures EndsWith(s, suffix) ==> EndsWith(r, rep) && r[..|r| - |rep|] == s[..|s| - |suffix|]
    ensures !EndsWith(s, suffix) ==> r == s
  {
    if EndsWith(s, suffix) then s[..|s| - |suffix|] + rep else s
  }

  /** A string that ends with a non-empty suffix ends with that suffix's last character. */
  lemma EndsWithLast(s: string, suffix: string)
    requires suffix != [] && EndsWith(s, suffix)
    ensures s[|s| - 1] == suffix[|suffix| - 1]
  {
    assert s[|s| - 1] == s[|s| - |suffix|..][|suffix| - 1];
  }

  lemma AppendAssociative(a: string, b: string, c: string)
    ensures a + (b + c) == a + b + c
  {
  }

  lemma ReplaceSuffixOfAppend(p: string, suffix: string, rep: string)
    ensures ReplaceSuffix(p + suffix, suffix, rep) == p + rep
  {
    assert (p + suffix)[|p + suffix| - |suffix|..] == suffix;
    assert (p + suffix)[..|p + suffix| - |suffix|] == p;
  }

  /**
   * The characters `String.prototype.trim` removes: ECMAScript's WhiteSpace
   * (tab, vertical tab, form feed, no-break space, byte order mark and the
   * Unicode space separators, including the ideographic space U+3000) and
   * LineTerminator (line feed, carriage return, U+2028, U+2029).
   */
  predicate IsWhiteSpace(c: char) {
    || c == '\t' || c == '\n' || c == '\U{000B}' || c == '\U{000C}' || c == '\r'
    || c == ' ' || c == '\U{00A0}' || c == '\U{1680}'
    || ('\U{2000}' <= c <= '\U{200A}')
    || c == '\U{2028}' || c == '\U{2029}' || c == '\U{202F}' || c == '\U{205F}'
    || c == '\U{3000}' || c == '\U{FEFF}'
  }

  predicate AllWhiteSpace(s: string) {
    forall i :: 0 <= i < |s| ==> IsWhiteSpace(s[i])
  }

  /** Drops the leading white space: what is left is a suffix of `s` that starts with a non-space. */
  function TrimStart(s: string): (r: string)
    ensures |r| <= |s| && r == s[|s| - |r|..]
    ensures AllWhiteSpace(s[..|s| - |r|])
    ensures r == [] || !IsWhiteSpace(r[0])
    decreases |s|
  {
    if s != [] && IsWhiteSpace(s[0]) then
      var r := TrimStart(s[1..]);
      assert s[..|s| - |r|] == [s[0]] + s[1..][..|s[1..]| - |r|];
      r
    else
      s
  }

  /** Drops the trailing white space: what is left is a prefix of `s` that ends with a non-space. */
  function TrimEnd(s: string): (r: string)
    ensures |r| <= |s| && r == s[..|r|]
    ensures AllWhiteSpace(s[|r|..])
    ensures r == [] || !IsWhiteSpace(r[|r| - 1])
    decreases |s|
  {
    if s != [] && IsWhiteSpace(s[|s| - 1]) then
      var r := TrimEnd(s[..|s| - 1]);
      assert s[|r|..] == s[..|s| - 1][|r|..] + [s[|s| - 1]];
      r
    else
      s
  }

  /**
   * `s.trim()`: the leading, then the trailing white space dropped. What is
   * left neither starts nor ends with white space (see `TrimCutsWhiteSpace`
   * for what is cut away).
   */
  function Trim(s: string): (r: string)
    ensures |r| <= |s|
    ensures NoSurroundingWhiteSpace(r)
  {
    var t := TrimStart(s);
    var r := TrimEnd(t);
    assert r != [] ==> r[0] == t[0];
    r
  }

  /** Trim keeps a contiguous part of the text and everything it cuts away around it is white space. */
  lemma TrimCutsWhiteSpace(s: string)
    ensures exists i, j :: 0 <= i <= j <= |s| && Trim(s) == s[i..j]
                        && AllWhiteSpace(s[..i]) && AllWhiteSpace(s[j..])
  {
    var t := TrimStart(s);
    var r := TrimEnd(t);
    var i, j := |s| - |t|, |s| - |t| + |r|;
    assert t == s[i..];
    assert r == s[i..j];
    assert s[j..] == t[|r|..];
    assert AllWhiteSpace(s[..i]) && AllWhiteSpace(s[j..]);
  }

  /** The input is blank exactly when trimming leaves nothing. */
  lemma TrimEmptyIffBlank(s: string)
    ensures Trim(s) == [] <==> AllWhiteSpace(s)
  {
    if AllWhiteSpace(s) {
      TrimStartOfBlank(s);
    }
    if Trim(s) == [] {
      var t := TrimStart(s);
      assert AllWhiteSpace(t[0..]);
      assert s == s[..|s| - |t|] + t;
    }
  }

  lemma {:induction false} TrimStartOfBlank(s: string)
    requires AllWhiteSpace(s)
    ensures TrimStart(s) == []
    decreases |s|
  {
    if s != [] {
      TrimStartOfBlank(s[1..]);
    }
  }

  predicate NoSurroundingWhiteSpace(s: string) {
    s == [] || (!IsWhiteSpace(s[0]) && !IsWhiteSpace(s[|s| - 1]))
  }

  /** Trim removes exactly the white space around a text, whatever that text holds inside. */
  lemma TrimSurrounded(a: string, s: string, b: string)
    requires AllWhiteSpace(a) && AllWhiteSpace(b) && NoSurroundingWhiteSpace(s)
    ensures Trim(a + s + b) == s
  {
    if s == [] {
      assert a + s + b == a + b;
      assert AllWhiteSpace(a + b);
      TrimStartOfBlank(a + b);
    } else {
      assert a + s + b == a + (s + b);
      assert (s + b)[0] == s[0];
      TrimStartOfPrefix(a, s + b);
      TrimEndOfSuffix(s, b);
    }
  }

  lemma {:induction false} TrimStartOfPrefix(a: string, t: string)
    requires AllWhiteSpace(a) && (t == [] || !IsWhiteSpace(t[0]))
    ensures TrimStart(a + t) == t
    decreases |a|
  {
    if a != [] {
      assert (a + t)[1..] == a[1..] + t;
      TrimStartOfPrefix(a[1..], t);
    }
  }

  lemma {:induction false} TrimEndOfSuffix(t: string, b: string)
    requires AllWhiteSpace(b) && t != [] && !IsWhiteSpace(t[|t| - 1])
    ensures TrimEnd(t + b) == t
    decreases |b|
  {
    if b != [] {
      assert (t + b)[..|t + b| - 1] == t + b[..|b| - 1];
      TrimEndOfSuffix(t, b[..|b| - 1]);
    } else {
      assert t + b == t;
    }
  }

  /** Trimming twice is trimming once. */
  lemma TrimIdempotent(s: string)
    ensures Trim(Trim(s)) == Trim(s)
  {
    var r := Trim(s);
    if r != [] {
      assert TrimStart(r) == r;
      assert TrimEnd(r) == r;
    }
  }
}
