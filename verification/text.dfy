/** String operations the application takes from Python's `str`: `strip`,
`startswith`/`endswith`, `split`/`join` on one separator character,
`replace` of one character by a string, and slicing a prefix.
 */
module Text {

  /** The characters for which Python's `str.isspace` holds. */
  predicate IsSpace(c: char) {
    || c == ' '
    || ('\t' <= c <= '\r')
    || ('\U{1C}' <= c <= '\U{1F}')
    || c == '\U{85}' || c == '\U{A0}' || c == '\U{1680}'
    || ('\U{2000}' <= c <= '\U{200A}')
    || c == '\U{2028}' || c == '\U{2029}' || c == '\U{202F}' || c == '\U{205F}' || c == '\U{3000}'
  }

  predicate AllSpace(s: string) {
    forall k :: 0 <= k < |s| ==> IsSpace(s[k])
  }

  /** Number of whitespace characters at the front of `s`. */
  function LeadingSpace(s: string): (n: nat)
    ensures n <= |s|
    ensures AllSpace(s[..n])
    ensures n < |s| ==> !IsSpace(s[n])
  {
    if |s| > 0 && IsSpace(s[0]) then 1 + LeadingSpace(s[1..]) else 0
  }

  /** Index where the run of whitespace at the back of `s` begins. */
  function TrailingStart(s: string): (m: nat)
    ensures m <= |s|
    ensures AllSpace(s[m..])
    ensures m > 0 ==> !IsSpace(s[m - 1])
  {
    if |s| > 0 && IsSpace(s[|s| - 1]) then
      var t := s[..|s| - 1];
      var m := TrailingStart(t);
      assert AllSpace(s[m..]) by {
        forall k | 0 <= k < |s| - m
          ensures IsSpace(s[m..][k])
        {
          if m + k < |t| {
            assert s[m..][k] == t[m..][k];
          }
        }
      }
      m
    else |s|
  }

  /** Python's `s.strip()`: `s` without its leading and trailing whitespace. */
  function Strip(s: string): (r: string)
    ensures r == "" <==> AllSpace(s)
    ensures r != "" ==> !IsSpace(r[0]) && !IsSpace(r[|r| - 1])
    ensures exists i :: 0 <= i <= |s| - |r| && s[i..i + |r|] == r && AllSpace(s[..i]) && AllSpace(s[i + |r|..])
  {
    var i := LeadingSpace(s);
    if i == |s| then
      assert s[..0] == "" && s[0..0] == "" && s == s[..i];
      ""
    else
      var j := TrailingStart(s);
      assert i < j;
      assert !AllSpace(s) by { assert !IsSpace(s[i]); }
      var r := s[i..j];
      assert r[0] == s[i] && r[|r| - 1] == s[j - 1];
      assert s[i..i + |r|] == r && AllSpace(s[..i]) && AllSpace(s[i + |r|..]);
      r
  }

  /** Stripping is idempotent. */
  lemma StripIdempotent(s: string)
    ensures Strip(Strip(s)) == Strip(s)
  {
    var r := Strip(s);
    if r != "" {
      assert LeadingSpace(r) == 0;
      assert TrailingStart(r) == |r|;
    }
  }

  predicate StartsWith(s: string, p: string) {
    |p| <= |s| && s[..|p|] == p
  }

  predicate EndsWith(s: string, p: string) {
    |p| <= |s| && s[|s| - |p|..] == p
  }

  /** Python's `s[:n]`. */
  function Take(s: string, n: nat): (r: string)
    ensures |r| == if |s| <= n then |s| else n
    ensures StartsWith(s, r)
  {
    if |s| <= n then s else s[..n]
  }

  /** Position of the first `c` in `s`. */
  function FirstIndex(s: string, c: char): (k: nat)
    requires c in s
    ensures k < |s| && s[k] == c && c !in s[..k]
  {
    if s[0] == c then 0 else 1 + FirstIndex(s[1..], c)
  }

  /** Python's `s.split(c)` for a one-character separator. */
  function SplitOn(s: string, c: char): (parts: seq<string>)
    ensures |parts| >= 1
    ensures forall i :: 0 <= i < |parts| ==> c !in parts[i]
    ensures |parts| == 1 <==> c !in s
    decreases |s|
  {
    if c in s then
      var k := FirstIndex(s, c);
      [s[..k]] + SplitOn(s[k + 1..], c)
    else
      [s]
  }

  /** Python's `c.join(parts)`. */
  function JoinWith(parts: seq<string>, c: char): string
  {
    if |parts| == 0 then ""
    else if |parts| == 1 then parts[0]
    else parts[0] + [c] + JoinWith(parts[1..], c)
  }

  /** Joining the pieces of a split gives back the original string. */
  lemma {:induction false} JoinSplit(s: string, c: char)
    ensures JoinWith(SplitOn(s, c), c) == s
    decreases |s|
  {
    if c in s {
      var k := FirstIndex(s, c);
      var rest := SplitOn(s[k + 1..], c);
      JoinSplit(s[k + 1..], c);
      JoinCons(s[..k], rest, c);
      assert s == s[..k] + [c] + s[k + 1..];
    }
  }

  /** Joining a piece in front of non-empty pieces puts one separator between. */
  lemma JoinCons(x: string, parts: seq<string>, c: char)
    requires |parts| >= 1
    ensures JoinWith([x] + parts, c) == x + [c] + JoinWith(parts, c)
  {
    assert ([x] + parts)[1..] == parts;
  }

  /** Splitting a join of separator-free pieces gives back the pieces. */
  lemma {:induction false} SplitJoin(parts: seq<string>, c: char)
    requires |parts| >= 1
    requires forall i :: 0 <= i < |parts| ==> c !in parts[i]
    ensures SplitOn(JoinWith(parts, c), c) == parts
    decreases |parts|
  {
    if |parts| > 1 {
      var s := JoinWith(parts, c);
      assert s == parts[0] + [c] + JoinWith(parts[1..], c);
      SeparatorAt(parts[0], JoinWith(parts[1..], c), c);
      SplitJoin(parts[1..], c);
    }
  }

  /** In `a + [c] + b` with `c` not in `a`, the first `c` sits right after `a`. */
  lemma {:induction false} SeparatorAt(a: string, b: string, c: char)
    requires c !in a
    ensures c in a + [c] + b
    ensures FirstIndex(a + [c] + b, c) == |a|
    ensures (a + [c] + b)[..|a|] == a && (a + [c] + b)[|a| + 1..] == b
    decreases |a|
  {
    var s := a + [c] + b;
    assert s[|a|] == c;
    if a != [] {
      assert s[0] == a[0] && a[0] != c;
      assert s[1..] == a[1..] + [c] + b;
      SeparatorAt(a[1..], b, c);
    }
  }

  /** A string equation split at a separator determines both sides. */
  lemma SeparatorSplit(a: string, x: string, b: string, y: string, c: char)
    requires c !in a && c !in b
    requires a + [c] + x == b + [c] + y
    ensures a == b && x == y
  {
    SeparatorAt(a, x, c);
    SeparatorAt(b, y, c);
  }

  /** Appending one more piece to a join adds the separator and the piece. */
  lemma {:induction false} JoinSnoc(parts: seq<string>, last: string, c: char)
    requires |parts| >= 1
    ensures JoinWith(parts + [last], c) == JoinWith(parts, c) + [c] + last
    decreases |parts|
  {
    if |parts| == 1 {
      assert parts + [last] == [parts[0], last];
      assert JoinWith([last], c) == last;
    } else {
      assert (parts + [last])[1..] == parts[1..] + [last];
      JoinSnoc(parts[1..], last, c);
    }
  }

  /** Python's `s.replace(c, repl)` for a single character `c`. */
  function Replace(s: string, c: char, repl: string): (r: string)
    requires c !in repl
    ensures c !in r
    ensures c !in s ==> r == s
    ensures s == [c] ==> r == repl
  {
    if s == [] then []
    else (if s[0] == c then repl else [s[0]]) + Replace(s[1..], c, repl)
  }

  /** Replacing commutes with concatenation: every occurrence is rewritten independently. */
  lemma {:induction false} ReplaceAppend(a: string, b: string, c: char, repl: string)
    requires c !in repl
    ensures Replace(a + b, c, repl) == Replace(a, c, repl) + Replace(b, c, repl)
    decreases |a|
  {
    if a != [] {
      assert (a + b)[1..] == a[1..] + b;
      ReplaceAppend(a[1..], b, c, repl);
    } else {
      assert a + b == b;
    }
  }

  /** Number of occurrences of `c` in `s`. */
  function Count(s: string, c: char): nat
  {
    if s == [] then 0 else (if s[0] == c then 1 else 0) + Count(s[1..], c)
  }

  /** Each occurrence grows the string by `|repl| - 1` characters. */
  lemma {:induction false} ReplaceLength(s: string, c: char, repl: string)
    requires c !in repl
    ensures |Replace(s, c, repl)| == |s| + Count(s, c) * (|repl| - 1)
    decreases |s|
  {
    if s != [] {
      ReplaceLength(s[1..], c, repl);
      var n := Count(s[1..], c);
      var m := |repl| - 1;
      var tail := Replace(s[1..], c, repl);
      if s[0] == c {
        assert Replace(s, c, repl) == repl + tail;
        assert Count(s, c) == n + 1;
        MulSucc(n, m);
      } else {
        assert Replace(s, c, repl) == [s[0]] + tail;
        assert Count(s, c) == n;
      }
    }
  }

  lemma MulSucc(n: nat, m: int)
    ensures (n + 1) * m == n * m + m
  {
  }
}
