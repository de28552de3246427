/** The JavaScript string operations the pipeline relies on: `trim`,
    `toLowerCase`, `includes` and `startsWith`, over strings as sequences of
    code points. */
module Text {

  /** ECMAScript WhiteSpace and LineTerminator code points: exactly what
      `String.prototype.trim` strips from both ends. */
  predicate IsJsWhitespace(c: char)
  {
    || c == '\t' || c == '\n' || c == '\U{000B}' || c == '\U{000C}' || c == '\r'
    || c == ' ' || c == '\U{00A0}' || c == '\U{1680}'
    || ('\U{2000}' <= c <= '\U{200A}')
    || c == '\U{2028}' || c == '\U{2029}' || c == '\U{202F}' || c == '\U{205F}'
    || c == '\U{3000}' || c == '\U{FEFF}'
  }

  /** Drops leading whitespace: the result is the suffix that starts at the
      first non-whitespace code point. */
  function TrimStart(s: string): (r: string)
    ensures |r| <= |s| && r == s[|s| - |r|..]
    ensures forall k :: 0 <= k < |s| - |r| ==> IsJsWhitespace(s[k])
    ensures r != [] ==> !IsJsWhitespace(r[0])
  {
    if s != [] && IsJsWhitespace(s[0]) then TrimStart(s[1..]) else s
  }

  /** Drops trailing whitespace: the result is the prefix that ends at the
      last non-whitespace code point. */
  function TrimEnd(s: string): (r: string)
    ensures |r| <= |s| && r == s[..|r|]
    ensures forall k :: |r| <= k < |s| ==> IsJsWhitespace(s[k])
    ensures r != [] ==> !IsJsWhitespace(r[|r| - 1])
  {
    if s != [] && IsJsWhitespace(s[|s| - 1]) then TrimEnd(s[..|s| - 1]) else s
  }

  /** `s.trim()`. */
  function Trim(s: string): (r: string)
    ensures |r| <= |s|
    ensures r != [] ==> !IsJsWhitespace(r[0]) && !IsJsWhitespace(r[|r| - 1])
  {
    assert TrimEnd(TrimStart(s)) != [] ==> TrimEnd(TrimStart(s))[0] == TrimStart(s)[0];
    TrimEnd(TrimStart(s))
  }

  /** `trim` keeps one contiguous slice of its input, drops only whitespace
      around it, and leaves no whitespace at either end of the result. */
  lemma TrimIsSlice(s: string)
    ensures exists i, j ::
              && 0 <= i <= j <= |s| && Trim(s) == s[i..j]
              && (forall k :: 0 <= k < i ==> IsJsWhitespace(s[k]))
              && (forall k :: j <= k < |s| ==> IsJsWhitespace(s[k]))
    ensures Trim(s) != [] ==> !IsJsWhitespace(Trim(s)[0]) && !IsJsWhitespace(Trim(s)[|Trim(s)| - 1])
  {
    var t := TrimStart(s);
    var r := TrimEnd(t);
    var i := |s| - |t|;
    var j := i + |r|;
    assert r == s[i..j] by {
      assert t == s[i..] && r == t[..|r|];
    }
    SuffixWhitespace(s, t, i);
    SliceBetweenWhitespace(s, r, i, j);
    TrimEnds(s);
  }

  lemma SuffixWhitespace(s: string, t: string, i: int)
    requires 0 <= i <= |s| && t == s[i..]
    ensures forall k :: i + |TrimEnd(t)| <= k < |s| ==> IsJsWhitespace(s[k])
  {
    forall k | i + |TrimEnd(t)| <= k < |s|
      ensures IsJsWhitespace(s[k])
    {
      assert s[k] == t[k - i];
    }
  }

  lemma TrimEnds(s: string)
    ensures Trim(s) != [] ==> !IsJsWhitespace(Trim(s)[0]) && !IsJsWhitespace(Trim(s)[|Trim(s)| - 1])
  {
    var t := TrimStart(s);
    if Trim(s) != [] {
      assert Trim(s)[0] == t[0];
    }
  }

  lemma SliceBetweenWhitespace(s: string, r: string, i: int, j: int)
    requires 0 <= i <= j <= |s| && r == s[i..j]
    requires forall k :: 0 <= k < i ==> IsJsWhitespace(s[k])
    requires forall k :: j <= k < |s| ==> IsJsWhitespace(s[k])
    ensures exists i', j' ::
              && 0 <= i' <= j' <= |s| && r == s[i'..j']
              && (forall k :: 0 <= k < i' ==> IsJsWhitespace(s[k]))
              && (forall k :: j' <= k < |s| ==> IsJsWhitespace(s[k]))
  {
  }

  /** Code point `k` of the trimmed string is code point `k` after the leading whitespace. */
  lemma TrimAt(s: string)
    ensures forall k :: 0 <= k < |Trim(s)| ==> Trim(s)[k] == s[|s| - |TrimStart(s)| + k]
  {
    var t := TrimStart(s);
    var r := TrimEnd(t);
    SliceAt(s, t, r, |s| - |t|);
  }

  /** A prefix of the suffix from `n` is read off from position `n`. */
  lemma SliceAt(s: string, t: string, r: string, n: int)
    requires 0 <= n <= |s| && t == s[n..] && |r| <= |t| && r == t[..|r|]
    ensures forall k :: 0 <= k < |r| ==> r[k] == s[n + k]
  {
  }

  /** Whitespace-free ends mean `trim` has nothing to do. */
  lemma TrimNoEdgeWhitespace(s: string)
    requires s != [] ==> !IsJsWhitespace(s[0]) && !IsJsWhitespace(s[|s| - 1])
    ensures Trim(s) == s
  {
  }

  /** Trimming twice is trimming once. */
  lemma TrimIdempotent(s: string)
    ensures Trim(Trim(s)) == Trim(s)
  {
    TrimIsSlice(s);
    TrimNoEdgeWhitespace(Trim(s));
  }

  /** Upper-case letters of ASCII and of the Latin-1 Supplement: the ones
      whose lower-case letter sits 32 code points higher. */
  predicate IsUpperLatin1(c: char)
  {
    ('A' <= c <= 'Z') || ('\U{00C0}' <= c <= '\U{00DE}' && c != '\U{00D7}')
  }

  /** The code points above 255 whose lower case lies in Latin-1 (the
      Unicode simple lower-case mappings of U+0178, U+1E9E, U+212A and U+212B). */
  predicate LowersIntoLatin1(c: char)
  {
    c == '\U{0178}' || c == '\U{1E9E}' || c == '\U{212A}' || c == '\U{212B}'
  }

  /** One code point of `toLowerCase`. The result is never an upper-case
      Latin-1 letter, it lies in Latin-1 exactly when the input does or is
      one of the four code points above, and only letters change. */
  function LowerChar(c: char): (r: char)
    ensures !IsUpperLatin1(r)
    ensures r as int <= 255 <==> c as int <= 255 || LowersIntoLatin1(c)
    ensures r != c ==> IsUpperLatin1(c) || LowersIntoLatin1(c)
    ensures IsUpperLatin1(c) ==> r as int - 32 == c as int
  {
    if IsUpperLatin1(c) then (c as int + 32) as char
    else if c == '\U{0178}' then '\U{00FF}'
    else if c == '\U{1E9E}' then '\U{00DF}'
    else if c == '\U{212A}' then 'k'
    else if c == '\U{212B}' then '\U{00E5}'
    else c
  }

  /** The four code points above 255 that lower into Latin-1, and their targets. */
  lemma LowerCharTargets(c: char)
    ensures c == '\U{0178}' ==> LowerChar(c) == '\U{00FF}'
    ensures c == '\U{1E9E}' ==> LowerChar(c) == '\U{00DF}'
    ensures c == '\U{212A}' ==> LowerChar(c) == 'k'
    ensures c == '\U{212B}' ==> LowerChar(c) == '\U{00E5}'
  {
  }

  /** Lowering a lowered code point changes nothing. */
  lemma LowerCharIdempotent(c: char)
    ensures LowerChar(LowerChar(c)) == LowerChar(c)
  {
  }

  /** `s.toLowerCase()`, code point by code point. */
  function ToLower(s: string): (r: string)
    ensures |r| == |s|
    ensures forall k :: 0 <= k < |s| ==> r[k] == LowerChar(s[k])
  {
    if s == [] then [] else [LowerChar(s[0])] + ToLower(s[1..])
  }

  /** Lowering twice is lowering once. */
  lemma ToLowerIdempotent(s: string)
    ensures ToLower(ToLower(s)) == ToLower(s)
  {
    forall k | 0 <= k < |s|
      ensures ToLower(ToLower(s))[k] == ToLower(s)[k]
    {
      LowerCharIdempotent(s[k]);
    }
  }

  /** `s.startsWith(prefix)`. */
  predicate StartsWith(s: string, prefix: string)
    ensures StartsWith(s, prefix) <==> OccursAt(s, prefix, 0)
  {
    |prefix| <= |s| && s[..|prefix|] == prefix
  }

  /** `sub` occurs in `s` starting at position `i`. */
  predicate OccursAt(s: string, sub: string, i: int)
  {
    0 <= i <= |s| - |sub| && s[i..i + |sub|] == sub
  }

  /** `s.includes(sub)`, scanning from the left. */
  predicate Includes(s: string, sub: string)
    ensures Includes(s, sub) ==> |sub| <= |s|
    ensures StartsWith(s, sub) ==> Includes(s, sub)
    decreases |s|
  {
    StartsWith(s, sub) || (|sub| < |s| && Includes(s[1..], sub))
  }

  /** A window of `s` past its first element is the same window of `s[1..]`, one to the left. */
  lemma SliceOfTail(s: string, i: int, n: int)
    requires 1 <= i && 0 <= n && i + n <= |s|
    ensures s[i..i + n] == s[1..][i - 1..i - 1 + n]
  {
    var window := s[i..i + n];
    var shifted := s[1..][i - 1..i - 1 + n];
    forall k | 0 <= k < n
      ensures window[k] == shifted[k]
    {
      assert window[k] == s[i + k];
    }
  }

  /** `s.includes(sub)` holds exactly when `sub` occurs in `s` at some position. */
  lemma {:induction false} IncludesOccurs(s: string, sub: string)
    ensures Includes(s, sub) <==> exists i | 0 <= i <= |s| - |sub| :: OccursAt(s, sub, i)
    decreases |s|
  {
    if StartsWith(s, sub) {
      assert OccursAt(s, sub, 0);
    } else if |sub| < |s| {
      IncludesOccurs(s[1..], sub);
      if Includes(s[1..], sub) {
        var i :| 0 <= i <= |s| - 1 - |sub| && OccursAt(s[1..], sub, i);
        SliceOfTail(s, i + 1, |sub|);
        assert OccursAt(s, sub, i + 1);
      } else {
        forall i | 0 <= i <= |s| - |sub|
          ensures !OccursAt(s, sub, i)
        {
          if i > 0 {
            SliceOfTail(s, i, |sub|);
            assert !OccursAt(s[1..], sub, i - 1);
          }
        }
      }
    } else {
      forall i | 0 <= i <= |s| - |sub|
        ensures !OccursAt(s, sub, i)
      {
        assert i == 0;
      }
    }
  }

  /** The code points of `s` with every code point of `drop` removed, order kept. */
  function Without(s: string, drop: set<char>): (r: string)
    ensures |r| <= |s|
    ensures forall k :: 0 <= k < |r| ==> r[k] !in drop
  {
    if s == [] then [] else (if s[0] in drop then [] else [s[0]]) + Without(s[1..], drop)
  }

  /** Removing code points works piece by piece, so the order of what is
      kept is the order of `a + b`. */
  lemma {:induction false} WithoutAppend(a: string, b: string, drop: set<char>)
    ensures Without(a + b, drop) == Without(a, drop) + Without(b, drop)
  {
    if a != [] {
      var head := if a[0] in drop then [] else [a[0]];
      assert (a + b)[0] == a[0];
      assert (a + b)[1..] == a[1..] + b;
      assert Without(a + b, drop) == head + Without(a[1..] + b, drop);
      assert Without(a, drop) == head + Without(a[1..], drop);
      WithoutAppend(a[1..], b, drop);
      assert head + (Without(a[1..], drop) + Without(b, drop))
          == (head + Without(a[1..], drop)) + Without(b, drop);
    } else {
      assert a + b == b;
    }
  }

  /** A string without any code point of `drop` is left as it is. */
  lemma {:induction false} WithoutNothingToDrop(s: string, drop: set<char>)
    requires forall k :: 0 <= k < |s| ==> s[k] !in drop
    ensures Without(s, drop) == s
  {
    if s != [] {
      WithoutNothingToDrop(s[1..], drop);
    }
  }

  /** Every code point outside `drop` is kept as often as it occurs. */
  lemma {:induction false} WithoutCounts(s: string, drop: set<char>, c: char)
    ensures multiset(Without(s, drop))[c] == if c in drop then 0 else multiset(s)[c]
  {
    if s != [] {
      WithoutCounts(s[1..], drop, c);
      assert s == [s[0]] + s[1..];
      assert multiset(s) == multiset([s[0]]) + multiset(s[1..]);
    }
  }
}
