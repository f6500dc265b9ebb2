/**
 * The parts of java.lang.String that the game engine relies on, for ASCII text:
 * toLowerCase, trim, startsWith, equalsIgnoreCase, and Collectors.joining.
 */
module JavaStrings {

  /** Character.toLowerCase on the ASCII letters; every other character is kept. */
  function LowerChar(c: char): char
  {
    if 'A' <= c <= 'Z' then (c as int + 32) as char else c
  }

  /** Character.toUpperCase on the ASCII letters; every other character is kept. */
  function UpperChar(c: char): char
  {
    if 'a' <= c <= 'z' then (c as int - 32) as char else c
  }

  /** String.toLowerCase: the same length, each character lowercased in place. */
  function Lower(s: string): (r: string)
    ensures |r| == |s|
    ensures forall i :: 0 <= i < |s| ==> r[i] == LowerChar(s[i])
  {
    if s == [] then [] else [LowerChar(s[0])] + Lower(s[1..])
  }

  /** The characters String.trim removes: every code point up to and including the space. */
  predicate IsWhite(c: char)
  {
    c <= ' '
  }

  /** Drops the leading white characters. */
  function TrimStart(s: string): (r: string)
    ensures |r| <= |s| && r == s[|s| - |r|..]
    ensures forall k :: 0 <= k < |s| - |r| ==> IsWhite(s[k])
    ensures r == [] || !IsWhite(r[0])
  {
    if s != [] && IsWhite(s[0]) then
      var r := TrimStart(s[1..]);
      assert s[1..][|s| - 1 - |r|..] == s[|s| - |r|..];
      assert forall k :: 1 <= k < |s| - |r| ==> s[k] == s[1..][k - 1];
      r
    else s
  }

  /** Drops the trailing white characters. */
  function TrimEnd(s: string): (r: string)
    ensures |r| <= |s| && r == s[..|r|]
    ensures forall k :: |r| <= k < |s| ==> IsWhite(s[k])
    ensures r == [] || !IsWhite(r[|r| - 1])
  {
    if s != [] && IsWhite(s[|s| - 1]) then
      var r := TrimEnd(s[..|s| - 1]);
      assert s[..|s| - 1][..|r|] == s[..|r|];
      assert forall k :: |r| <= k < |s| - 1 ==> s[k] == s[..|s| - 1][k];
      r
    else s
  }

  /** String.trim: neither end of the result is white. */
  function Trim(s: string): (r: string)
    ensures |r| <= |s|
    ensures r == [] || (!IsWhite(r[0]) && !IsWhite(r[|r| - 1]))
  {
    TrimEnd(TrimStart(s))
  }

  /** A string whose two ends are not white: String.trim leaves it alone. */
  predicate IsTrimmed(s: string)
  {
    s == [] || (!IsWhite(s[0]) && !IsWhite(s[|s| - 1]))
  }

  /** Every character of `s` is white. */
  predicate AllWhite(s: string)
  {
    forall k :: 0 <= k < |s| ==> IsWhite(s[k])
  }

  /** String.startsWith. */
  predicate StartsWith(s: string, prefix: string)
  {
    |prefix| <= |s| && s[..|prefix|] == prefix
  }

  /** The per-character test of String.equalsIgnoreCase (via String.regionMatches). */
  predicate CharEqualsIgnoreCase(a: char, b: char)
  {
    a == b || UpperChar(a) == UpperChar(b) || LowerChar(UpperChar(a)) == LowerChar(UpperChar(b))
  }

  /** String.equalsIgnoreCase: equal lengths and every position matches ignoring case. */
  predicate EqualsIgnoreCase(a: string, b: string)
  {
    |a| == |b| && forall i :: 0 <= i < |a| ==> CharEqualsIgnoreCase(a[i], b[i])
  }

  /** Collectors.joining(sep) over a list of strings. */
  function Join(xs: seq<string>, sep: string): string
  {
    if xs == [] then "" else if |xs| == 1 then xs[0] else xs[0] + sep + Join(xs[1..], sep)
  }

  // ---------------------------------------------------------------- lemmas

  /** Lowercasing twice is lowercasing once. */
  lemma {:induction false} LowerIdempotent(s: string)
    ensures Lower(Lower(s)) == Lower(s)
  {
  }

  /** A string without capital letters is its own lowercase. */
  lemma {:induction false} LowerWithoutCapitals(s: string)
    requires forall i :: 0 <= i < |s| ==> !('A' <= s[i] <= 'Z')
    ensures Lower(s) == s
  {
  }

  /** Lowercasing works character by character, so it distributes over concatenation. */
  lemma {:induction false} LowerAppend(a: string, b: string)
    ensures Lower(a + b) == Lower(a) + Lower(b)
  {
    forall k | 0 <= k < |a + b|
      ensures Lower(a + b)[k] == (Lower(a) + Lower(b))[k]
    {
      if k < |a| {
        assert (a + b)[k] == a[k];
      } else {
        assert (a + b)[k] == b[k - |a|];
      }
    }
  }

  /** Lowercasing commutes with taking a slice. */
  lemma {:induction false} LowerSlice(s: string, i: nat, j: nat)
    requires i <= j <= |s|
    ensures Lower(s[i..j]) == Lower(s)[i..j]
  {
    forall k | 0 <= k < j - i
      ensures Lower(s[i..j])[k] == Lower(s)[i..j][k]
    {
      assert s[i..j][k] == s[i + k];
    }
  }

  /** Lowercasing neither creates nor removes white characters. */
  lemma {:induction false} LowerKeepsWhite(s: string)
    ensures forall k :: 0 <= k < |s| ==> (IsWhite(Lower(s)[k]) <==> IsWhite(s[k]))
  {
  }

  /** White characters in front do not change what TrimStart keeps. */
  lemma {:induction false} TrimStartSkipsWhite(pre: string, rest: string)
    requires AllWhite(pre)
    ensures TrimStart(pre + rest) == TrimStart(rest)
  {
    if pre != [] {
      assert (pre + rest)[0] == pre[0] && (pre + rest)[1..] == pre[1..] + rest;
      TrimStartSkipsWhite(pre[1..], rest);
      assert TrimStart(pre + rest) == TrimStart(pre[1..] + rest);
    } else {
      assert pre + rest == rest;
    }
  }

  /** White characters behind do not change what TrimEnd keeps. */
  lemma {:induction false} TrimEndSkipsWhite(rest: string, post: string)
    requires AllWhite(post)
    ensures TrimEnd(rest + post) == TrimEnd(rest)
  {
    if post != [] {
      var all := rest + post;
      assert all[|all| - 1] == post[|post| - 1] && all[..|all| - 1] == rest + post[..|post| - 1];
      TrimEndSkipsWhite(rest, post[..|post| - 1]);
      assert TrimEnd(all) == TrimEnd(rest + post[..|post| - 1]);
    } else {
      assert rest + post == rest;
    }
  }

  /**
   * String.trim removes exactly the surrounding whitespace: padding a trimmed
   * string on both sides with white characters and trimming gives it back.
   */
  lemma {:induction false} TrimPadded(pre: string, core: string, post: string)
    requires AllWhite(pre) && AllWhite(post) && IsTrimmed(core)
    ensures Trim(pre + core + post) == core
  {
    assert pre + core + post == pre + (core + post);
    TrimStartSkipsWhite(pre, core + post);
    if core == [] {
      assert core + post == post + [];
      TrimStartSkipsWhite(post, []);
    } else {
      assert TrimStart(core + post) == core + post;
    }
    TrimEndSkipsWhite(core, post);
  }

  /** What TrimStart drops is white. */
  lemma {:induction false} LeadingWhite(s: string)
    ensures AllWhite(s[..|s| - |TrimStart(s)|])
  {
    var n := |s| - |TrimStart(s)|;
    forall k | 0 <= k < n
      ensures IsWhite(s[..n][k])
    {
      assert s[..n][k] == s[k];
    }
  }

  /** What TrimEnd drops is white. */
  lemma {:induction false} TrailingWhite(s: string)
    ensures AllWhite(s[|TrimEnd(s)|..])
  {
    var n := |TrimEnd(s)|;
    forall k | 0 <= k < |s| - n
      ensures IsWhite(s[n..][k])
    {
      assert s[n..][k] == s[n + k];
    }
  }

  /** Trim picks a slice of its input; everything outside the slice is white. */
  lemma {:induction false} TrimBounds(s: string) returns (i: nat, j: nat)
    ensures i <= j <= |s| && Trim(s) == s[i..j]
    ensures AllWhite(s[..i]) && AllWhite(s[j..])
  {
    var t := TrimStart(s);
    var u := TrimEnd(t);
    i := |s| - |t|;
    j := i + |u|;
    LeadingWhite(s);
    TrailingWhite(t);
    assert t == s[i..];
    assert s[j..] == t[|u|..];
    assert u == t[..|u|] == s[i..j];
  }

  /** Trimming twice is trimming once. */
  lemma {:induction false} TrimIdempotent(s: string)
    ensures Trim(Trim(s)) == Trim(s)
  {
    var t := Trim(s);
    assert [] + t + [] == t;
    TrimPadded([], t, []);
  }

  /** Lowercasing a string cut in three pieces lowercases each piece. */
  lemma {:induction false} LowerThreePieces(s: string, i: nat, j: nat)
    requires i <= j <= |s|
    ensures Lower(s) == Lower(s[..i]) + Lower(s[i..j]) + Lower(s[j..])
  {
    LowerSlice(s, 0, i);
    LowerSlice(s, i, j);
    LowerSlice(s, j, |s|);
    assert s[0..i] == s[..i] && s[j..|s|] == s[j..];
    var l := Lower(s);
    assert l == l[0..i] + l[i..j] + l[j..|s|];
  }

  /** Lowercasing keeps white text white and trimmed text trimmed. */
  lemma {:induction false} LowerKeepsShape(s: string)
    ensures AllWhite(s) ==> AllWhite(Lower(s))
    ensures IsTrimmed(s) ==> IsTrimmed(Lower(s))
  {
    LowerKeepsWhite(s);
  }

  /** Lowercasing and trimming commute, because white characters have no case. */
  lemma {:induction false} LowerTrimCommute(s: string)
    ensures Lower(Trim(s)) == Trim(Lower(s))
  {
    var i, j := TrimBounds(s);
    LowerThreePieces(s, i, j);
    LowerKeepsShape(s[..i]);
    LowerKeepsShape(s[i..j]);
    LowerKeepsShape(s[j..]);
    TrimPadded(Lower(s[..i]), Lower(s[i..j]), Lower(s[j..]));
  }

  /** Trim leaves a trimmed string alone. */
  lemma {:induction false} TrimmedFixed(s: string)
    requires IsTrimmed(s)
    ensures Trim(s) == s
  {
    assert [] + s + [] == s;
    TrimPadded([], s, []);
  }

  /** A trimmed string stays trimmed, and trim leaves it alone, after lowercasing. */
  lemma {:induction false} TrimmedLower(s: string)
    requires IsTrimmed(s)
    ensures IsTrimmed(Lower(s)) && Trim(Lower(s)) == Lower(s)
  {
    TrimmedFixed(s);
    LowerTrimCommute(s);
  }

  /** Java's case-insensitive character test is equality after lowercasing (for ASCII). */
  lemma {:induction false} CharEqualsIgnoreCaseIff(a: char, b: char)
    ensures CharEqualsIgnoreCase(a, b) <==> LowerChar(a) == LowerChar(b)
  {
  }

  /** String.equalsIgnoreCase holds exactly when both strings lowercase to the same text. */
  lemma {:induction false} EqualsIgnoreCaseIff(a: string, b: string)
    ensures EqualsIgnoreCase(a, b) <==> Lower(a) == Lower(b)
  {
    if |a| == |b| {
      forall i | 0 <= i < |a|
        ensures CharEqualsIgnoreCase(a[i], b[i]) <==> Lower(a)[i] == Lower(b)[i]
      {
        CharEqualsIgnoreCaseIff(a[i], b[i]);
      }
    }
  }

  /** Joining one more element adds the separator and that element at the end. */
  lemma {:induction false} JoinAppend(xs: seq<string>, x: string, sep: string)
    requires xs != []
    ensures Join(xs + [x], sep) == Join(xs, sep) + sep + x
  {
    if |xs| > 1 {
      assert (xs + [x])[1..] == xs[1..] + [x];
      JoinAppend(xs[1..], x, sep);
    }
  }
}
