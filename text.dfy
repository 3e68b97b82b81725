/** The string helpers of Go's `strings` package that the protocol engine
    uses, stated over `seq<char>`. Case mapping is ASCII only. */
module Text {

  const CRLF: string := "\r\n"

  /** Index of the first `c` in `s`, or -1 (strings.IndexByte). */
  function IndexOf(s: string, c: char): (r: int)
    ensures -1 <= r < |s|
    ensures r == -1 <==> c !in s
    ensures 0 <= r ==> s[r] == c && c !in s[..r]
  {
    if |s| == 0 then -1
    else if s[0] == c then 0
    else
      var k := IndexOf(s[1..], c);
      assert s[1..][..if k < 0 then 0 else k] == s[1..if k < 0 then 1 else k + 1];
      if k < 0 then -1 else k + 1
  }

  /** Index of the first character of `s` that is in `cs`, or -1
      (strings.IndexAny). */
  function IndexOfAny(s: string, cs: set<char>): (r: int)
    ensures -1 <= r < |s|
    ensures r == -1 <==> forall i :: 0 <= i < |s| ==> s[i] !in cs
    ensures 0 <= r ==> s[r] in cs && forall i :: 0 <= i < r ==> s[i] !in cs
  {
    if |s| == 0 then -1
    else if s[0] in cs then 0
    else
      var k := IndexOfAny(s[1..], cs);
      assert forall i :: 1 <= i < |s| ==> s[i] == s[1..][i - 1];
      if k < 0 then -1 else k + 1
  }

  /** Index of the last `c` in `s`, or -1 (strings.LastIndexByte). */
  function LastIndexOf(s: string, c: char): (r: int)
    ensures -1 <= r < |s|
    ensures r == -1 <==> c !in s
    ensures 0 <= r ==> s[r] == c && c !in s[r + 1..]
  {
    if |s| == 0 then -1
    else if s[|s| - 1] == c then |s| - 1
    else
      var k := LastIndexOf(s[..|s| - 1], c);
      assert s == s[..|s| - 1] + [s[|s| - 1]];
      assert 0 <= k ==> s[k + 1..] == s[..|s| - 1][k + 1..] + [s[|s| - 1]];
      k
  }

  /** Go's unicode.IsSpace. */
  predicate IsSpace(c: char) {
    c == ' ' || c == '\t' || c == '\n' || c == '\r' || c == '\U{000B}' || c == '\U{000C}'
    || c == '\U{0085}' || c == '\U{00A0}' || c == '\U{1680}'
    || ('\U{2000}' <= c <= '\U{200A}') || c == '\U{2028}' || c == '\U{2029}'
    || c == '\U{202F}' || c == '\U{205F}' || c == '\U{3000}'
  }

  function TrimLeft(s: string): (r: string)
    ensures |r| <= |s| && r == s[|s| - |r|..]
    ensures r == [] || !IsSpace(r[0])
    ensures forall i :: 0 <= i < |s| - |r| ==> IsSpace(s[i])
  {
    if |s| > 0 && IsSpace(s[0]) then TrimLeft(s[1..]) else s
  }

  function TrimRight(s: string): (r: string)
    ensures |r| <= |s| && r == s[..|r|]
    ensures r == [] || !IsSpace(r[|r| - 1])
    ensures forall i :: |r| <= i < |s| ==> IsSpace(s[i])
  {
    if |s| > 0 && IsSpace(s[|s| - 1]) then TrimRight(s[..|s| - 1]) else s
  }

  /** strings.TrimSpace: drop leading and trailing white space. */
  function TrimSpace(s: string): (r: string)
    ensures |r| <= |s|
    ensures r == [] || (!IsSpace(r[0]) && !IsSpace(r[|r| - 1]))
    ensures exists i, j :: 0 <= i <= j <= |s| && r == s[i..j]
  {
    var l := TrimLeft(s);
    var r := TrimRight(l);
    var a := |s| - |l|;
    assert l == s[a..];
    assert r == l[..|r|];
    assert l[..|r|] == s[a..a + |r|];
    assert r != [] ==> r[0] == l[0];
    r
  }

  predicate IsLowerAscii(c: char) { 'a' <= c <= 'z' }
  predicate IsUpperAscii(c: char) { 'A' <= c <= 'Z' }

  function UpperChar(c: char): char {
    if IsLowerAscii(c) then (c as int - 32) as char else c
  }

  function LowerChar(c: char): char {
    if IsUpperAscii(c) then (c as int + 32) as char else c
  }

  /** strings.ToUpper, for ASCII letters. */
  function ToUpper(s: string): (r: string)
    ensures |r| == |s|
    ensures forall i :: 0 <= i < |s| ==> r[i] == UpperChar(s[i])
  {
    if |s| == 0 then [] else [UpperChar(s[0])] + ToUpper(s[1..])
  }

  /** strings.ToLower, for ASCII letters. */
  function ToLower(s: string): (r: string)
    ensures |r| == |s|
    ensures forall i :: 0 <= i < |s| ==> r[i] == LowerChar(s[i])
  {
    if |s| == 0 then [] else [LowerChar(s[0])] + ToLower(s[1..])
  }

  predicate IsPrefix(p: string, s: string) {
    |p| <= |s| && s[..|p|] == p
  }

  /** strings.Contains: `sub` occurs somewhere in `s`. */
  predicate Contains(s: string, sub: string)
    decreases |s|
  {
    IsPrefix(sub, s) || (|s| > 0 && Contains(s[1..], sub))
  }

  /** strings.Join. */
  function Join(parts: seq<string>, sep: string): string {
    if |parts| == 0 then ""
    else if |parts| == 1 then parts[0]
    else parts[0] + sep + Join(parts[1..], sep)
  }

  /** TrimSpace is idempotent: trimming text that is already trimmed
      changes nothing. */
  lemma {:induction false} TrimSpaceIdempotent(s: string)
    ensures TrimSpace(TrimSpace(s)) == TrimSpace(s)
  {
    var t := TrimSpace(s);
    if t != [] {
      assert TrimLeft(t) == t;
      assert TrimRight(t) == t;
    }
  }

  /** Contains finds every occurrence given by its position. */
  lemma {:induction false} ContainsAt(s: string, sub: string, k: nat)
    requires k + |sub| <= |s| && s[k..k + |sub|] == sub
    ensures Contains(s, sub)
    decreases k
  {
    if k > 0 {
      assert s[1..][k - 1..k - 1 + |sub|] == s[k..k + |sub|];
      ContainsAt(s[1..], sub, k - 1);
    }
  }

  /** IndexOf of a string extended by one character. */
  lemma IndexOfSnoc(s: string, c: char, x: char)
    ensures IndexOf(s + [x], c) == if c in s then IndexOf(s, c) else if x == c then |s| else -1
  {
    var t := s + [x];
    var k := IndexOf(s, c);
    if c in s {
      assert t[..k] == s[..k];
      assert t[k] == c;
    } else if x == c {
      assert t[..|s|] == s;
    } else {
      assert c !in t;
    }
  }

  /** LastIndexOf of a string extended by one character. */
  lemma LastIndexOfSnoc(s: string, c: char, x: char)
    ensures LastIndexOf(s + [x], c) == if x == c then |s| else LastIndexOf(s, c)
  {
    var t := s + [x];
    assert t[..|t| - 1] == s;
  }

  predicate AllSpace(s: string) {
    forall i :: 0 <= i < |s| ==> IsSpace(s[i])
  }

  /** TrimLeft drops exactly a leading run of white space. */
  lemma {:induction false} TrimLeftPadded(a: string, s: string)
    requires AllSpace(a) && (s == [] || !IsSpace(s[0]))
    ensures TrimLeft(a + s) == s
    decreases |a|
  {
    if a != [] {
      assert (a + s)[1..] == a[1..] + s;
      TrimLeftPadded(a[1..], s);
    } else {
      assert a + s == s;
    }
  }

  /** TrimRight drops exactly a trailing run of white space. */
  lemma {:induction false} TrimRightPadded(s: string, b: string)
    requires AllSpace(b) && (s == [] || !IsSpace(s[|s| - 1]))
    ensures TrimRight(s + b) == s
    decreases |b|
  {
    if b != [] {
      assert (s + b)[..|s + b| - 1] == s + b[..|b| - 1];
      TrimRightPadded(s, b[..|b| - 1]);
    } else {
      assert s + b == s;
    }
  }

  /** TrimSpace undoes white-space padding on both sides. */
  lemma TrimSpacePadded(a: string, s: string, b: string)
    requires AllSpace(a) && AllSpace(b)
    requires s == [] || (!IsSpace(s[0]) && !IsSpace(s[|s| - 1]))
    ensures TrimSpace(a + s + b) == s
  {
    if s == [] {
      assert a + s + b == a + b;
      assert AllSpace(a + b);
      TrimLeftPadded(a + b, []);
      assert a + b + [] == a + b;
    } else {
      assert a + s + b == a + (s + b);
      TrimLeftPadded(a, s + b);
      TrimRightPadded(s, b);
    }
  }

  /** The first `c` of `a + [c] + b` is the one after `a` when `a` has none. */
  lemma IndexOfSplit(a: string, c: char, b: string)
    requires c !in a
    ensures IndexOf(a + [c] + b, c) == |a|
  {
    var s := a + [c] + b;
    assert s[..|a|] == a && s[|a|] == c;
  }

  /** The last `c` of `a + [c] + b` is the one after `a` when `b` has none. */
  lemma LastIndexOfSplit(a: string, c: char, b: string)
    requires c !in b
    ensures LastIndexOf(a + [c] + b, c) == |a|
  {
    var s := a + [c] + b;
    assert s[|a| + 1..] == b && s[|a|] == c;
  }
}
