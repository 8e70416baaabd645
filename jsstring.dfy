/** The few JavaScript string operations the chat core relies on:
    `trim`, `indexOf` of one character, `substring(0, n)`, `startsWith`
    and `Array.prototype.join`. Strings are `seq<char>`, sequences of
    Unicode scalar values; they count as JavaScript's UTF-16 code units do
    only for text without surrogate pairs. */
module JsString {

  /** The characters `String.prototype.trim` strips: the ECMAScript
      WhiteSpace and LineTerminator code points. */
  predicate IsWhitespace(c: char)
  {
    || c == '\t' || c == '\n' || c == '\U{000B}' || c == '\U{000C}' || c == '\r'
    || c == ' ' || c == '\U{00A0}' || c == '\U{1680}'
    || ('\U{2000}' <= c <= '\U{200A}')
    || c == '\U{2028}' || c == '\U{2029}' || c == '\U{202F}' || c == '\U{205F}'
    || c == '\U{3000}' || c == '\U{FEFF}'
  }

  /** Every character of `s` is whitespace (the empty string included). */
  predicate Blank(s: string)
  {
    forall i :: 0 <= i < |s| ==> IsWhitespace(s[i])
  }

  /** Drops leading whitespace: the result is a suffix of `s`, what was
      dropped is blank, and the result does not start with whitespace. */
  function TrimStart(s: string): (r: string)
    ensures |r| <= |s| && r == s[|s| - |r|..]
    ensures Blank(s[..|s| - |r|])
    ensures r != [] ==> !IsWhitespace(r[0])
  {
    if |s| > 0 && IsWhitespace(s[0]) then
      var r := TrimStart(s[1..]);
      assert s[..|s| - |r|] == [s[0]] + s[1..][..|s| - 1 - |r|];
      r
    else s
  }

  /** Drops trailing whitespace: the result is a prefix of `s`, what was
      dropped is blank, and the result does not end with whitespace. */
  function TrimEnd(s: string): (r: string)
    ensures |r| <= |s| && r == s[..|r|]
    ensures Blank(s[|r|..])
    ensures r != [] ==> !IsWhitespace(r[|r| - 1])
  {
    if |s| > 0 && IsWhitespace(s[|s| - 1]) then
      var r := TrimEnd(s[..|s| - 1]);
      assert s[|r|..] == s[..|s| - 1][|r|..] + [s[|s| - 1]];
      r
    else s
  }

  /** `s.trim()`: empty exactly when `s` is blank; otherwise it neither
      starts nor ends with whitespace. Which slice of `s` it is: TrimIsSlice. */
  function Trim(s: string): (r: string)
    ensures r == "" <==> Blank(s)
    ensures r != "" ==> !IsWhitespace(r[0]) && !IsWhitespace(r[|r| - 1])
  {
    TrimEmptyIffBlank(s);
    TrimEnd(TrimStart(s))
  }

  /** What `Trim` returns is the slice of `s` left once its blank prefix,
      what `TrimStart` drops, and a blank suffix are cut off. */
  lemma TrimIsSlice(s: string)
    ensures BetweenBlanks(s, |s| - |TrimStart(s)|, Trim(s))
  {
    var t := TrimStart(s);
    CutBothEnds(s, t, TrimEnd(t));
  }

  /** `r` is the slice of `s` starting at `a` and lying between a blank
      prefix and a blank suffix of `s`. */
  predicate BetweenBlanks(s: string, a: nat, r: string)
  {
    && a + |r| <= |s| && r == s[a..a + |r|]
    && Blank(s[..a]) && Blank(s[a + |r|..])
  }

  /** Cutting a blank prefix and then a blank suffix leaves a slice of `s`
      between a blank prefix and a blank suffix of `s`. */
  lemma CutBothEnds(s: string, t: string, r: string)
    requires |t| <= |s| && t == s[|s| - |t|..] && Blank(s[..|s| - |t|])
    requires |r| <= |t| && r == t[..|r|] && Blank(t[|r|..])
    ensures BetweenBlanks(s, |s| - |t|, r)
  {
    assert t[|r|..] == s[|s| - |t| + |r|..];
  }

  /** Trimming empties exactly the blank strings. */
  lemma TrimEmptyIffBlank(s: string)
    ensures TrimEnd(TrimStart(s)) == "" <==> Blank(s)
  {
    var t := TrimStart(s);
    var a := |s| - |t|;
    if TrimEnd(t) == "" {
      assert Blank(t[0..]);
      assert t == s[a..];
      BlankSplit(s, a);
    } else {
      var r := TrimEnd(t);
      assert t[0] == r[0];
      assert s[a] == t[0];
    }
  }

  /** A string whose two halves are blank is blank. */
  lemma BlankSplit(s: string, a: nat)
    requires a <= |s| && Blank(s[..a]) && Blank(s[a..])
    ensures Blank(s)
  {
    forall i | 0 <= i < |s| ensures IsWhitespace(s[i]) {
      if i < a { assert s[i] == s[..a][i]; } else { assert s[i] == s[a..][i - a]; }
    }
  }

  /** `s.indexOf(c)`: the position of the first `c`, or -1 when there is none. */
  function IndexOf(s: string, c: char): (r: int)
    ensures -1 <= r < |s|
    ensures r == -1 <==> c !in s
    ensures r >= 0 ==> s[r] == c && c !in s[..r]
  {
    if |s| == 0 then -1
    else if s[0] == c then 0
    else
      var k := IndexOf(s[1..], c);
      assert s[1..][..if k >= 0 then k else 0] == s[1..1 + if k >= 0 then k else 0];
      if k == -1 then -1 else k + 1
  }

  /** The first `c` of `p + [c] + x` ends `p` when `p` has none. */
  lemma FirstAfter(p: string, c: char, x: string)
    requires c !in p
    ensures IndexOf(p + [c] + x, c) == |p|
  {
    var s := p + [c] + x;
    assert s[|p|] == c;
    assert s[..|p|] == p;
  }

  /** `s.substring(0, n)`: the first `n` characters, or all of `s` when it is shorter. */
  function Prefix(s: string, n: nat): (r: string)
    ensures |r| == if |s| <= n then |s| else n
    ensures r == s[..|r|]
  {
    if |s| <= n then s else s[..n]
  }

  /** `s.startsWith(p)`. */
  predicate StartsWith(s: string, p: string)
  {
    |p| <= |s| && s[..|p|] == p
  }

  /** A string starts with `p` exactly when it is `p` followed by the rest. */
  lemma StartsWithAppend(s: string, p: string, t: string)
    ensures StartsWith(p + t, p)
    ensures StartsWith(s, p) ==> s == p + s[|p|..]
  {
    assert (p + t)[..|p|] == p;
  }

  /** `s.endsWith(p)`. */
  predicate EndsWith(s: string, p: string)
  {
    |p| <= |s| && s[|s| - |p|..] == p
  }

  /** `ss.join(sep)`: the elements in order with `sep` between neighbours. */
  function Join(ss: seq<string>, sep: string): (r: string)
    ensures ss == [] ==> r == ""
    ensures |ss| == 1 ==> r == ss[0]
  {
    if |ss| == 0 then ""
    else if |ss| == 1 then ss[0]
    else ss[0] + sep + Join(ss[1..], sep)
  }

  /** Joining one more element at the end adds one separator and that element. */
  lemma {:induction false} JoinSnoc(ss: seq<string>, x: string, sep: string)
    requires ss != []
    ensures Join(ss + [x], sep) == Join(ss, sep) + sep + x
  {
    if |ss| == 1 {
      assert ss + [x] == [ss[0], x];
      assert [ss[0], x][1..] == [x];
    } else {
      assert (ss + [x])[1..] == ss[1..] + [x];
      JoinSnoc(ss[1..], x, sep);
    }
  }
}
