/** The parts of .NET's strings that the chat relies on: Char.IsWhiteSpace,
    String.Trim and String.Join. */
module Strings {

  /** Char.IsWhiteSpace: the Unicode space separators, the line and paragraph
      separators, the control characters U+0009 to U+000D, and U+0085. */
  predicate IsWhiteSpace(c: char)
  {
    || c == ' '
    || ('\t' <= c <= '\r')
    || c == '\U{85}'
    || c == '\U{A0}'
    || c == '\U{1680}'
    || ('\U{2000}' <= c <= '\U{200A}')
    || c == '\U{2028}'
    || c == '\U{2029}'
    || c == '\U{202F}'
    || c == '\U{205F}'
    || c == '\U{3000}'
  }

  /** Every character of s is white space (true of the empty string). */
  predicate AllWhiteSpace(s: string)
  {
    forall k | 0 <= k < |s| :: IsWhiteSpace(s[k])
  }

  /** s neither begins nor ends with white space. */
  predicate Unpadded(s: string)
  {
    s == [] || (!IsWhiteSpace(s[0]) && !IsWhiteSpace(s[|s| - 1]))
  }

  /** String.TrimStart(): drops the leading white space. */
  function TrimStart(s: string): (r: string)
    ensures |r| <= |s| && r == s[|s| - |r|..]
    ensures AllWhiteSpace(s[..|s| - |r|])
    ensures r == [] || !IsWhiteSpace(r[0])
  {
    if s != [] && IsWhiteSpace(s[0]) then
      var r := TrimStart(s[1..]);
      assert s[..|s| - |r|] == [s[0]] + s[1..][..|s| - 1 - |r|];
      r
    else
      s
  }

  /** String.TrimEnd(): drops the trailing white space. */
  function TrimEnd(s: string): (r: string)
    ensures |r| <= |s| && r == s[..|r|]
    ensures AllWhiteSpace(s[|r|..])
    ensures r == [] || !IsWhiteSpace(r[|r| - 1])
  {
    if s != [] && IsWhiteSpace(s[|s| - 1]) then
      var r := TrimEnd(s[..|s| - 1]);
      assert s[|r|..] == s[..|s| - 1][|r|..] + [s[|s| - 1]];
      r
    else
      s
  }

  /** String.Trim(): drops the leading and the trailing white space. The
      result is empty exactly when s is nothing but white space. */
  function Trim(s: string): (r: string)
    ensures |r| <= |s|
    ensures Unpadded(r)
    ensures r == [] <==> AllWhiteSpace(s)
  {
    TrimEmptyWhenBlank(s);
    TrimEnd(TrimStart(s))
  }

  lemma TrimEmptyWhenBlank(s: string)
    ensures TrimEnd(TrimStart(s)) == [] <==> AllWhiteSpace(s)
  {
    var t := TrimStart(s);
    var i := |s| - |t|;
    if TrimEnd(t) == [] {
      assert t == [];
      assert s == s[..i];
    }
  }

  lemma {:induction false} TrimStartOf(lead: string, rest: string)
    requires AllWhiteSpace(lead)
    requires rest == [] || !IsWhiteSpace(rest[0])
    ensures TrimStart(lead + rest) == rest
    decreases |lead|
  {
    if lead != [] {
      assert (lead + rest)[1..] == lead[1..] + rest;
      TrimStartOf(lead[1..], rest);
    } else {
      assert lead + rest == rest;
    }
  }

  lemma {:induction false} TrimEndOf(rest: string, trail: string)
    requires AllWhiteSpace(trail)
    requires rest == [] || !IsWhiteSpace(rest[|rest| - 1])
    ensures TrimEnd(rest + trail) == rest
    decreases |trail|
  {
    if trail != [] {
      var s := rest + trail;
      assert s[..|s| - 1] == rest + trail[..|trail| - 1];
      TrimEndOf(rest, trail[..|trail| - 1]);
    } else {
      assert rest + trail == rest;
    }
  }

  /** Trim(s) is the unique unpadded middle of a split of s into white space,
      that middle, and white space. */
  lemma TrimOfPadded(lead: string, middle: string, trail: string)
    requires AllWhiteSpace(lead) && AllWhiteSpace(trail)
    requires Unpadded(middle)
    ensures Trim(lead + middle + trail) == middle
  {
    var s := lead + middle + trail;
    if middle == [] {
      assert s == lead + trail;
      assert AllWhiteSpace(s);
    } else {
      assert s == lead + (middle + trail);
      TrimStartOf(lead, middle + trail);
      TrimEndOf(middle, trail);
    }
  }

  /** The leading white space that Trim drops. */
  function Leading(s: string): (r: string)
    ensures AllWhiteSpace(r)
    ensures s == r + TrimStart(s)
  {
    var t := TrimStart(s);
    SplitAt(s, |s| - |t|);
    s[..|s| - |t|]
  }

  /** The trailing white space that Trim drops. */
  function Trailing(s: string): (r: string)
    ensures AllWhiteSpace(r)
    ensures TrimStart(s) == Trim(s) + r
  {
    var t := TrimStart(s);
    var m := TrimEnd(t);
    SplitAt(t, |m|);
    t[|m|..]
  }

  lemma SplitAt(s: string, i: nat)
    requires i <= |s|
    ensures s == s[..i] + s[i..]
  {
  }

  /** s is white space, then Trim(s), then white space. */
  lemma TrimSplits(s: string)
    ensures s == Leading(s) + Trim(s) + Trailing(s)
    ensures AllWhiteSpace(Leading(s)) && AllWhiteSpace(Trailing(s))
  {
    Regroup(s, Leading(s), TrimStart(s), Trim(s), Trailing(s));
  }

  lemma Regroup(s: string, a: string, t: string, b: string, c: string)
    requires s == a + t && t == b + c
    ensures s == a + b + c
  {
  }

  lemma Unframed(s: string)
    ensures [] + s + [] == s
  {
  }

  /** Trimming twice is trimming once. */
  lemma TrimIdempotent(s: string)
    ensures Trim(Trim(s)) == Trim(s)
  {
    var r := Trim(s);
    Unframed(r);
    TrimOfPadded([], r, []);
  }

  /** String.Join(sep, xs): the strings of xs with sep between neighbours. */
  function Join(sep: string, xs: seq<string>): (r: string)
    ensures xs != [] ==> |xs[0]| <= |r| && r[..|xs[0]|] == xs[0]
  {
    if |xs| == 0 then ""
    else if |xs| == 1 then xs[0]
    else xs[0] + sep + Join(sep, xs[1..])
  }

  /** The sum of the lengths of xs. */
  function TotalLength(xs: seq<string>): (n: nat)
  {
    if xs == [] then 0 else |xs[0]| + TotalLength(xs[1..])
  }

  /** A join of k strings adds k - 1 separators and nothing else. */
  lemma {:induction false} JoinLength(sep: string, xs: seq<string>)
    requires xs != []
    ensures |Join(sep, xs)| == TotalLength(xs) + |sep| * (|xs| - 1)
  {
    if |xs| > 1 {
      JoinLength(sep, xs[1..]);
    }
  }

  /** Every character of s lies in the Basic Multilingual Plane. */
  predicate InBmp(s: string)
  {
    forall k | 0 <= k < |s| :: s[k] as int <= 0xFFFF
  }

  /** String.Length: the number of UTF-16 code units of s, two for a
      character outside the Basic Multilingual Plane and one otherwise. */
  function Utf16Length(s: string): (n: nat)
    ensures |s| <= n <= 2 * |s|
    ensures InBmp(s) ==> n == |s|
  {
    if s == [] then 0
    else (if s[0] as int > 0xFFFF then 2 else 1) + Utf16Length(s[1..])
  }

  /** The UTF-16 length of a concatenation is the sum of the lengths of its parts. */
  lemma {:induction false} Utf16LengthAppend(a: string, b: string)
    ensures Utf16Length(a + b) == Utf16Length(a) + Utf16Length(b)
    decreases |a|
  {
    if a == [] {
      assert a + b == b;
    } else {
      assert (a + b)[0] == a[0];
      assert (a + b)[1..] == a[1..] + b;
      Utf16LengthAppend(a[1..], b);
    }
  }
}
