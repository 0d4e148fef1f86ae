/** `parse_bullet_to_richtext` in `utils/doc_helpers.py`: a bullet's text
is split with `re.split(r"(\*\*.*?\*\*)", text)` and every piece becomes a
rich-text run, bold when it both starts and ends with "**".

The regular expression is modelled directly: a match starts at a "**",
its lazy body runs to the first following "**", and fails if a newline
(which `.` does not match) or the end of the text comes first. `re.split`
takes the leftmost match, resumes after it, and keeps the matches
(the capturing group) between the unmatched pieces.
 */
module BoldMarkdown {
  import opened Wrappers
  import Text

  predicate StarsAt(s: string, k: int) {
    0 <= k && k + 1 < |s| && s[k] == '*' && s[k + 1] == '*'
  }

  predicate HasStars(s: string) {
    exists k :: 0 <= k < |s| && StarsAt(s, k)
  }

  /** Where the lazy body starting at `j` closes: the first "**" at or
  after `j`, provided no newline comes before it. There is no close
  exactly when a newline comes before every "**" at or after `j`. */
  function CloseFrom(s: string, j: nat): (r: Option<nat>)
    requires j <= |s|
    ensures r.Some? ==> j <= r.value && StarsAt(s, r.value)
    ensures r.Some? ==> forall k :: j <= k < r.value ==> s[k] != '\n' && !StarsAt(s, k)
    ensures r.None? ==> forall k :: j <= k < |s| && StarsAt(s, k) ==> '\n' in s[j..k]
    decreases |s| - j
  {
    if j + 1 >= |s| then None
    else if StarsAt(s, j) then Some(j)
    else if s[j] == '\n' then
      assert forall k :: j < k <= |s| ==> s[j..k][0] == '\n';
      None
    else
      var r := CloseFrom(s, j + 1);
      assert r.None? ==> forall k :: j + 1 <= k < |s| && StarsAt(s, k) ==> '\n' in s[j..k] by {
        if r.None? {
          forall k | j + 1 <= k < |s| && StarsAt(s, k)
            ensures '\n' in s[j..k]
          {
            assert s[j + 1..k] == s[j..k][1..];
          }
        }
      }
      r
  }

  /** The end of the match of `\*\*.*?\*\*` starting exactly at `i`, if any. */
  function MatchAt(s: string, i: nat): (r: Option<nat>)
    requires i <= |s|
    ensures r.Some? ==> i + 4 <= r.value <= |s|
  {
    if StarsAt(s, i) then
      match CloseFrom(s, i + 2)
      case Some(k) => Some(k + 2)
      case None => None
    else None
  }

  /** The match at `i` is the shortest delimited piece starting at `i`, and
  there is none when no piece starting at `i` is delimited. */
  lemma MatchAtShortest(s: string, i: nat)
    requires i <= |s|
    ensures var r := MatchAt(s, i);
            && (r.Some? ==> DelimitedAt(s, i, r.value))
            && (r.Some? ==> forall e :: i <= e < r.value ==> !DelimitedAt(s, i, e))
            && (r.None? ==> forall e :: i <= e <= |s| ==> !DelimitedAt(s, i, e))
  {
    if StarsAt(s, i) {
      match CloseFrom(s, i + 2)
      case Some(k) =>
        DelimitedClose(s, i, k);
        ShortestClose(s, i, k);
      case None =>
        NoClose(s, i);
    } else {
      NotStarsNoMatch(s, i);
    }
  }

  /** `s[i..e]` is delimited exactly when "**" sits at both of its ends and
  the text between them has no newline and no "**". */
  lemma DelimitedSlice(s: string, i: nat, e: nat)
    requires i <= e <= |s|
    ensures DelimitedAt(s, i, e) <==>
              && i + 4 <= e && StarsAt(s, i) && StarsAt(s, e - 2)
              && (forall j :: i + 2 <= j < e - 2 ==> s[j] != '\n')
              && (forall j :: i + 2 <= j < e - 3 ==> !StarsAt(s, j))
  {
    var p := s[i..e];
    if i + 4 <= e {
      assert Text.StartsWith(p, "**") <==> StarsAt(s, i) by {
        assert p[..2][0] == s[i] && p[..2][1] == s[i + 1];
      }
      assert Text.EndsWith(p, "**") <==> StarsAt(s, e - 2) by {
        assert p[|p| - 2..][0] == s[e - 2] && p[|p| - 2..][1] == s[e - 1];
      }
      var inner := p[2..|p| - 2];
      assert |inner| == e - i - 4;
      assert forall j :: 0 <= j < |inner| ==> inner[j] == s[i + 2 + j];
      assert '\n' !in inner <==> forall j :: i + 2 <= j < e - 2 ==> s[j] != '\n' by {
        if '\n' in inner {
          var t :| 0 <= t < |inner| && inner[t] == '\n';
          assert s[i + 2 + t] == '\n';
        }
      }
      assert HasStars(inner) <==> exists j :: i + 2 <= j < e - 3 && StarsAt(s, j) by {
        if HasStars(inner) {
          var t :| 0 <= t < |inner| && StarsAt(inner, t);
          assert StarsAt(s, i + 2 + t);
        }
        if exists j :: i + 2 <= j < e - 3 && StarsAt(s, j) {
          var j :| i + 2 <= j < e - 3 && StarsAt(s, j);
          assert StarsAt(inner, j - i - 2);
        }
      }
    }
  }

  /** The piece from a "**" at `i` to the close after it is delimited. */
  lemma DelimitedClose(s: string, i: nat, k: nat)
    requires StarsAt(s, i) && i + 2 <= |s| && CloseFrom(s, i + 2) == Some(k)
    ensures i + 4 <= k + 2 <= |s| && DelimitedAt(s, i, k + 2)
  {
    DelimitedSlice(s, i, k + 2);
  }

  /** No delimited piece starting at `i` is shorter than the one the close
  after `i + 2` ends. */
  lemma ShortestClose(s: string, i: nat, k: nat)
    requires StarsAt(s, i) && i + 2 <= |s| && CloseFrom(s, i + 2) == Some(k)
    ensures forall e :: i <= e < k + 2 ==> !DelimitedAt(s, i, e)
  {
    forall e | i <= e < k + 2 && e <= |s|
      ensures !DelimitedAt(s, i, e)
    {
      DelimitedSlice(s, i, e);
    }
  }

  /** Without a close after `i + 2`, no piece starting at `i` is delimited. */
  lemma NoClose(s: string, i: nat)
    requires i + 2 <= |s| && CloseFrom(s, i + 2).None?
    ensures forall e :: i <= e <= |s| ==> !DelimitedAt(s, i, e)
  {
    forall e | i <= e <= |s|
      ensures !DelimitedAt(s, i, e)
    {
      DelimitedSlice(s, i, e);
      if e >= i + 4 && StarsAt(s, e - 2) {
        assert '\n' in s[i + 2..e - 2];
        var t :| 0 <= t < e - 2 - (i + 2) && s[i + 2..e - 2][t] == '\n';
        assert s[i + 2 + t] == '\n';
      }
    }
  }

  /** Without a "**" at `i`, no piece starting at `i` is delimited. */
  lemma NotStarsNoMatch(s: string, i: nat)
    requires i <= |s| && !StarsAt(s, i)
    ensures forall e :: i <= e <= |s| ==> !DelimitedAt(s, i, e)
  {
    forall e | i <= e <= |s|
      ensures !DelimitedAt(s, i, e)
    {
      DelimitedSlice(s, i, e);
    }
  }

  /** The regular expression matches exactly `s[i..e]`. */
  predicate DelimitedAt(s: string, i: nat, e: nat)
    requires i <= e <= |s|
  {
    Delimited(s[i..e])
  }

  /** A piece the regular expression matched: "**", an inner text without
  newline and without "**", then "**". */
  predicate Delimited(p: string) {
    && |p| >= 4
    && Text.StartsWith(p, "**") && Text.EndsWith(p, "**")
    && '\n' !in p[2..|p| - 2]
    && !HasStars(p[2..|p| - 2])
  }

  /** No match of the regular expression starts in `s[lo..hi]`. */
  predicate NoMatchIn(s: string, lo: nat, hi: nat)
    requires lo <= hi <= |s|
  {
    forall p :: lo <= p < hi ==> MatchAt(s, p).None?
  }

  /** `r` is what `re.split` with a capturing pattern returns for `s[p..]`:
  the text up to the leftmost match, in which no match starts, then that
  match, then the rest split the same way; the last piece is text in which
  no match starts. */
  predicate SplitsFrom(s: string, p: nat, r: seq<string>)
    requires p <= |s|
    decreases |r|
  {
    if |r| == 1 then r[0] == s[p..] && NoMatchIn(s, p, |s|)
    else
      && |r| >= 3
      && var q := p + |r[0]|;
      && var e := q + |r[1]|;
      && e <= |s| && r[0] == s[p..q] && r[1] == s[q..e]
      && NoMatchIn(s, p, q) && MatchAt(s, q) == Some(e)
      && SplitsFrom(s, e, r[2..])
  }

  /** The pieces of `s[start..]` when scanning resumes at `i`: the
  unmatched text before each match, the match itself, and the rest. */
  function Pieces(s: string, start: nat, i: nat): (r: seq<string>)
    requires start <= i <= |s|
    ensures |r| % 2 == 1
    ensures forall k :: 0 <= k < |r| && k % 2 == 1 ==> Delimited(r[k])
    decreases |s| - i
  {
    if i == |s| then [s[start..]]
    else
      match MatchAt(s, i)
      case Some(e) =>
        MatchAtShortest(s, i);
        var rest := Pieces(s, e, e);
        var r := [s[start..i], s[i..e]] + rest;
        assert forall k :: 2 <= k < |r| ==> r[k] == rest[k - 2];
        r
      case None => Pieces(s, start, i + 1)
  }

  /** `re.split(r"(\*\*.*?\*\*)", text)`. */
  function Split(text: string): (pieces: seq<string>)
    ensures |pieces| % 2 == 1
    ensures forall k :: 0 <= k < |pieces| && k % 2 == 1 ==> Delimited(pieces[k])
  {
    Pieces(text, 0, 0)
  }

  /** When no match starts in the skipped `s[start..i]`, the pieces are
  the split of `s[start..]`. */
  lemma {:induction false} PiecesSplit(s: string, start: nat, i: nat)
    requires start <= i <= |s| && NoMatchIn(s, start, i)
    ensures SplitsFrom(s, start, Pieces(s, start, i))
    decreases |s| - i
  {
    var r := Pieces(s, start, i);
    if i < |s| {
      match MatchAt(s, i)
      case Some(e) =>
        PiecesSplit(s, e, e);
        assert r[2..] == Pieces(s, e, e);
      case None =>
        PiecesSplit(s, start, i + 1);
    }
  }

  /** `Split` is what `re.split` returns, and by `SplitsFromUnique` the
  only splitting its rule allows. */
  lemma SplitIsReSplit(text: string)
    ensures SplitsFrom(text, 0, Split(text))
  {
    PiecesSplit(text, 0, 0);
  }

  /** The splitting rule leaves no choice: two splits of the same text
  are equal. So `Split` is the only result `re.split` could return. */
  lemma {:induction false} SplitsFromUnique(s: string, p: nat, r1: seq<string>, r2: seq<string>)
    requires p <= |s| && SplitsFrom(s, p, r1) && SplitsFrom(s, p, r2)
    ensures r1 == r2
    decreases |r1|
  {
    var q1 := FirstMatch(s, p, r1);
    var q2 := FirstMatch(s, p, r2);
    SameHeads(s, p, r1, q1, r2, q2);
    if |r1| > 1 {
      var e1 := SplitsFromTail(s, p, r1);
      var e2 := SplitsFromTail(s, p, r2);
      assert e1 == e2;
      SplitsFromUnique(s, e1, r1[2..], r2[2..]);
      SameParts(r1, r2);
    }
  }

  lemma SameParts(r1: seq<string>, r2: seq<string>)
    requires |r1| > 1 && |r2| > 1 && r1[0] == r2[0] && r1[1] == r2[1] && r1[2..] == r2[2..]
    ensures r1 == r2
  {
    assert r1 == [r1[0], r1[1]] + r1[2..] && r2 == [r2[0], r2[1]] + r2[2..];
  }

  /** `q` is where the first match of the split `r` of `s[p..]` starts (the
  end of the text when there is none). */
  predicate FirstMatchAt(s: string, p: nat, r: seq<string>, q: nat)
    requires p <= |s|
  {
    && p <= q <= |s| && NoMatchIn(s, p, q) && |r| >= 1
    && (|r| == 1 <==> q == |s|)
    && (|r| == 1 ==> r == [s[p..]])
    && (|r| > 1 ==> && q == p + |r[0]| && q + |r[1]| <= |s|
                    && r[0] == s[p..q] && r[1] == s[q..q + |r[1]|]
                    && MatchAt(s, q) == Some(q + |r[1]|))
  }

  /** Two splits of the same text start with the same piece, and with the
  same match when there is one. */
  lemma SameHeads(s: string, p: nat, r1: seq<string>, q1: nat, r2: seq<string>, q2: nat)
    requires p <= |s| && FirstMatchAt(s, p, r1, q1) && FirstMatchAt(s, p, r2, q2)
    ensures |r1| == 1 <==> |r2| == 1
    ensures |r1| == 1 ==> r1 == r2
    ensures |r1| > 1 ==> r1[0] == r2[0] && r1[1] == r2[1]
  {
    FirstMatchNotBefore(s, p, q1, q2);
    FirstMatchNotBefore(s, p, q2, q1);
    if |r1| > 1 {
      assert Some(q1 + |r1[1]|) == MatchAt(s, q1) == Some(q1 + |r2[1]|);
    }
  }

  /** Where the first match of a split starts. */
  lemma FirstMatch(s: string, p: nat, r: seq<string>) returns (q: nat)
    requires p <= |s| && SplitsFrom(s, p, r)
    ensures FirstMatchAt(s, p, r, q)
  {
    if |r| == 1 {
      q := |s|;
    } else {
      q := p + |r[0]|;
    }
  }

  /** After the first two pieces of a split, the rest splits the text that
  follows them. */
  lemma SplitsFromTail(s: string, p: nat, r: seq<string>) returns (e: nat)
    requires p <= |s| && SplitsFrom(s, p, r) && |r| > 1
    ensures e == p + |r[0]| + |r[1]| <= |s| && SplitsFrom(s, e, r[2..])
  {
    e := p + |r[0]| + |r[1]|;
  }

  /** One split cannot find its first match before another split's first
  match, since no match starts before that point. */
  lemma FirstMatchNotBefore(s: string, p: nat, qa: nat, qb: nat)
    requires p <= qa <= |s| && p <= qb <= |s|
    requires NoMatchIn(s, p, qb)
    requires qa < |s| ==> MatchAt(s, qa).Some?
    ensures qa >= qb
  {
  }

  function Concat(pieces: seq<string>): string
  {
    if pieces == [] then "" else pieces[0] + Concat(pieces[1..])
  }

  lemma {:induction false} ConcatAppend(a: seq<string>, b: seq<string>)
    ensures Concat(a + b) == Concat(a) + Concat(b)
    decreases |a|
  {
    if a == [] {
      assert a + b == b;
    } else {
      assert (a + b)[1..] == a[1..] + b;
      ConcatAppend(a[1..], b);
    }
  }

  lemma {:induction false} PiecesConcat(s: string, start: nat, i: nat)
    requires start <= i <= |s|
    ensures Concat(Pieces(s, start, i)) == s[start..]
    decreases |s| - i
  {
    if i == |s| {
      assert Concat([s[start..]]) == s[start..] + Concat([]);
    } else {
      match MatchAt(s, i)
      case Some(e) =>
        PiecesConcat(s, e, e);
        var rest := Pieces(s, e, e);
        ConcatAppend([s[start..i], s[i..e]], rest);
        assert Concat([s[start..i], s[i..e]]) == s[start..i] + s[i..e] + Concat([]);
        assert s[start..] == s[start..i] + s[i..e] + s[e..];
      case None =>
        PiecesConcat(s, start, i + 1);
    }
  }

  /** The pieces, concatenated in order, give back the text. */
  lemma SplitConcat(text: string)
    ensures Concat(Split(text)) == text
  {
    PiecesConcat(text, 0, 0);
  }

  /** Scanning text without "**" finds no match. */
  lemma {:induction false} PiecesNoStars(s: string, start: nat, i: nat)
    requires start <= i <= |s|
    requires !HasStars(s)
    ensures Pieces(s, start, i) == [s[start..]]
    decreases |s| - i
  {
    if i < |s| {
      assert !StarsAt(s, i);
      PiecesNoStars(s, start, i + 1);
    }
  }

  /** A text with no "**" is a single piece, itself. */
  lemma SplitNoStars(text: string)
    requires !HasStars(text)
    ensures Split(text) == [text]
  {
    PiecesNoStars(text, 0, 0);
  }

  /** A run of a `RichText`: its text and whether it is bold. */
  datatype Run = Run(text: string, bold: bool)

  /** `part[2:-2]`: the text between the first two and the last two
  characters, empty for pieces shorter than four. */
  function Inner(p: string): string
  {
    if |p| >= 4 then p[2..|p| - 2] else ""
  }

  /** The run one piece becomes. */
  function Classify(p: string): (run: Run)
    ensures run.bold <==> Text.StartsWith(p, "**") && Text.EndsWith(p, "**")
    ensures run.bold ==> run.text == Inner(p)
    ensures !run.bold ==> run.text == p
  {
    if Text.StartsWith(p, "**") && Text.EndsWith(p, "**") then Run(Inner(p), true) else Run(p, false)
  }

  function ClassifyAll(pieces: seq<string>): (runs: seq<Run>)
    ensures |runs| == |pieces|
    ensures forall k :: 0 <= k < |pieces| ==> runs[k] == Classify(pieces[k])
  {
    if pieces == [] then [] else [Classify(pieces[0])] + ClassifyAll(pieces[1..])
  }

  /** `parse_bullet_to_richtext`: one run per piece, in order; every matched
  piece is a bold run of its inner text, which holds neither a newline nor
  "**". */
  function ParseBullet(text: string): (runs: seq<Run>)
    ensures |runs| == |Split(text)| && |runs| % 2 == 1
    ensures forall k :: 0 <= k < |runs| && k % 2 == 1 ==>
              runs[k].bold && '\n' !in runs[k].text && !HasStars(runs[k].text)
    ensures forall k :: 0 <= k < |runs| && !runs[k].bold ==> runs[k].text == Split(text)[k]
    ensures forall k :: 0 <= k < |runs| ==> runs[k] == Classify(Split(text)[k])
  {
    ClassifyAll(Split(text))
  }

  /** Writing the runs back as markdown: bold runs wrapped in "**". */
  function Render(runs: seq<Run>): string
  {
    if runs == [] then ""
    else (if runs[0].bold then "**" + runs[0].text + "**" else runs[0].text) + Render(runs[1..])
  }

  /** A bold run rendered back is the piece it came from, when that piece
  has the four delimiter characters. */
  lemma RenderPiece(p: string)
    requires |p| >= 4 || !(Text.StartsWith(p, "**") && Text.EndsWith(p, "**"))
    ensures Render([Classify(p)]) == p
  {
    if Text.StartsWith(p, "**") && Text.EndsWith(p, "**") {
      assert p == p[..2] + p[2..|p| - 2] + p[|p| - 2..];
    }
  }

  lemma {:induction false} RenderClassified(pieces: seq<string>)
    requires forall k :: 0 <= k < |pieces| ==>
               |pieces[k]| >= 4 || !(Text.StartsWith(pieces[k], "**") && Text.EndsWith(pieces[k], "**"))
    ensures Render(ClassifyAll(pieces)) == Concat(pieces)
    decreases |pieces|
  {
    if pieces != [] {
      var runs := ClassifyAll(pieces);
      var head := if runs[0].bold then "**" + runs[0].text + "**" else runs[0].text;
      assert Render([runs[0]]) == head + Render([]);
      RenderPiece(pieces[0]);
      assert runs[1..] == ClassifyAll(pieces[1..]);
      RenderClassified(pieces[1..]);
      assert Render(runs) == head + Render(runs[1..]);
      assert Concat(pieces) == pieces[0] + Concat(pieces[1..]);
    }
  }

  /** Round trip: when no unmatched piece is a short "**" or "***", writing
  the runs back as markdown reproduces the text. */
  lemma RenderParseBullet(text: string)
    requires forall k :: 0 <= k < |Split(text)| && k % 2 == 0 ==> |Split(text)[k]| != 2 && |Split(text)[k]| != 3
    ensures Render(ParseBullet(text)) == text
  {
    var pieces := Split(text);
    forall k | 0 <= k < |pieces|
      ensures |pieces[k]| >= 4 || !(Text.StartsWith(pieces[k], "**") && Text.EndsWith(pieces[k], "**"))
    {
      if k % 2 == 1 {
        assert Delimited(pieces[k]);
      }
    }
    RenderClassified(pieces);
    SplitConcat(text);
  }

  /** A text without "**" is one plain run of itself; "" is one empty plain run. */
  lemma PlainText(text: string)
    requires !HasStars(text)
    ensures ParseBullet(text) == [Run(text, false)]
  {
    SplitNoStars(text);
    if |text| >= 2 {
      assert !StarsAt(text, 0);
    }
  }

  /** A lone "**" is not matched, yet passes the bold test: it becomes an
  empty bold run, and writing the runs back does not give the text. */
  lemma LoneStarsBecomeEmptyBold()
    ensures ParseBullet("**") == [Run("", true)]
    ensures Render(ParseBullet("**")) != "**"
  {
    assert MatchAt("**", 0) == None;
    assert MatchAt("**", 1) == None;
    assert Split("**") == ["**"];
  }
}
