/** The markdown-like pass the post card and the lesson viewer share:
    `**x**` becomes `<strong>x</strong>`, then `*x*` becomes `<em>x</em>`,
    each a global regular-expression replacement with a lazy group. */
module Markdown {
  import opened Seqs
  import opened Text

  /** The end of the lazy `(.*?)` group followed by `d`, scanning from `j`:
      the first position where `d` starts, provided no line terminator lies
      in between (`.` matches any other character). */
  function CloseAt(s: string, d: string, j: nat): (r: Option<nat>)
    requires j <= |s|
    ensures r.Some? ==> j <= r.value <= |s| && StartsWith(s[r.value..], d)
    decreases |s| - j
  {
    if StartsWith(s[j..], d) then Some(j)
    else if j < |s| && !IsLineTerminator(s[j]) then CloseAt(s, d, j + 1)
    else None
  }

  /** The group closes at the first delimiter after `j`: no line terminator
      and no start of a delimiter lies before it. */
  lemma {:induction false} CloseAtIsFirst(s: string, d: string, j: nat)
    requires j <= |s| && CloseAt(s, d, j).Some?
    ensures forall k :: j <= k < CloseAt(s, d, j).value ==> !IsLineTerminator(s[k]) && !StartsWith(s[k..], d)
    decreases |s| - j
  {
    if !StartsWith(s[j..], d) {
      CloseAtIsFirst(s, d, j + 1);
    }
  }

  /** `s.replace(/dd(.*?)dd/g, open + "$1" + close)` for a delimiter `d`:
      scanning left to right, each match is replaced and the scan resumes
      after it; a position where no match starts is copied. */
  function ReplacePairs(s: string, d: string, open: string, close: string): string
    requires |d| > 0
    decreases |s|
  {
    if s == [] then []
    else if StartsWith(s, d) && CloseAt(s, d, |d|).Some? then
      var k := CloseAt(s, d, |d|).value;
      open + s[|d|..k] + close + ReplacePairs(s[k + |d|..], d, open, close)
    else [s[0]] + ReplacePairs(s[1..], d, open, close)
  }

  /** Without the delimiter's first character, nothing is replaced. */
  lemma {:induction false} ReplacePairsIdentity(s: string, d: string, open: string, close: string)
    requires |d| > 0 && d[0] !in s
    ensures ReplacePairs(s, d, open, close) == s
    decreases |s|
  {
    if s != [] {
      assert s[0] in s;
      assert forall k :: 0 <= k < |s[1..]| ==> s[1..][k] in s;
      ReplacePairsIdentity(s[1..], d, open, close);
    }
  }

  /** Occurrences add up over a concatenation of four strings. */
  lemma Occurrences4(a: string, b: string, c: string, e: string, ch: char)
    ensures Occurrences(a + b + c + e, ch) ==
            Occurrences(a, ch) + Occurrences(b, ch) + Occurrences(c, ch) + Occurrences(e, ch)
  {
    assert multiset(a + b + c + e) == multiset(a) + multiset(b) + multiset(c) + multiset(e);
  }

  /** One replacement step: where a pair matches, the string is the
      delimiter, the group, the delimiter and the rest. */
  lemma ReplaceStep(s: string, d: string, k: nat)
    requires |d| > 0 && StartsWith(s, d) && |d| <= k <= |s| && StartsWith(s[k..], d)
    ensures s == d + s[|d|..k] + d + s[k + |d|..]
  {
    assert s[k..k + |d|] == s[k..][..|d|];
    assert s == s[..|d|] + s[|d|..k] + s[k..k + |d|] + s[k + |d|..];
  }

  /** Replacing one matched pair keeps the line breaks, given that the rest
      keeps them. */
  lemma PairKeepsLines(d: string, mid: string, rest: string, open: string, close: string, replaced: string)
    requires '\n' !in d && '\n' !in open && '\n' !in close
    requires Occurrences(replaced, '\n') == Occurrences(rest, '\n')
    ensures Occurrences(open + mid + close + replaced, '\n') == Occurrences(d + mid + d + rest, '\n')
  {
    Occurrences4(d, mid, d, rest, '\n');
    Occurrences4(open, mid, close, replaced, '\n');
  }

  /** Replacement neither adds nor removes line breaks when the delimiter and
      the tags contain none. */
  lemma {:induction false} ReplacePairsKeepsLines(s: string, d: string, open: string, close: string)
    requires |d| > 0 && '\n' !in d && '\n' !in open && '\n' !in close
    ensures Occurrences(ReplacePairs(s, d, open, close), '\n') == Occurrences(s, '\n')
    decreases |s|
  {
    if s == [] {
    } else if StartsWith(s, d) && CloseAt(s, d, |d|).Some? {
      var k := CloseAt(s, d, |d|).value;
      var mid, rest := s[|d|..k], s[k + |d|..];
      ReplacePairsKeepsLines(rest, d, open, close);
      ReplaceStep(s, d, k);
      PairKeepsLines(d, mid, rest, open, close, ReplacePairs(rest, d, open, close));
    } else {
      ReplacePairsKeepsLines(s[1..], d, open, close);
      assert s == [s[0]] + s[1..];
    }
  }

  /** A string in which the delimiter starts nowhere is left as it is. */
  lemma {:induction false} ReplacePairsAbsent(s: string, d: string, open: string, close: string)
    requires |d| > 0
    requires forall i :: 0 <= i < |s| ==> !StartsWith(s[i..], d)
    ensures ReplacePairs(s, d, open, close) == s
    decreases |s|
  {
    if s != [] {
      assert s[0..] == s;
      forall i | 0 <= i < |s[1..]|
        ensures !StartsWith(s[1..][i..], d)
      {
        assert s[1..][i..] == s[i + 1..];
      }
      ReplacePairsAbsent(s[1..], d, open, close);
    }
  }

  /** Text in front without the delimiter's first character is copied, and
      the rest is replaced on its own. */
  lemma {:induction false} ReplacePairsPrefix(a: string, rest: string, d: string, open: string, close: string)
    requires |d| > 0 && d[0] !in a
    ensures ReplacePairs(a + rest, d, open, close) == a + ReplacePairs(rest, d, open, close)
    decreases |a|
  {
    if a == [] {
      assert a + rest == rest;
    } else {
      var s := a + rest;
      assert s[0] == a[0] && a[0] in a;
      assert !StartsWith(s, d) by {
        if |d| <= |s| { assert s[..|d|][0] == s[0]; }
      }
      assert s[1..] == a[1..] + rest;
      assert a == [a[0]] + a[1..];
      ReplacePairsPrefix(a[1..], rest, d, open, close);
      calc {
        ReplacePairs(s, d, open, close);
        [s[0]] + ReplacePairs(s[1..], d, open, close);
        [a[0]] + (a[1..] + ReplacePairs(rest, d, open, close));
        a + ReplacePairs(rest, d, open, close);
      }
    }
  }

  /** The lazy group closes at the first delimiter when the text up to it
      holds neither a line terminator nor the start of a delimiter. */
  lemma {:induction false} CloseAtFirst(s: string, d: string, j: nat, k: nat)
    requires j <= k <= |s| && StartsWith(s[k..], d)
    requires forall i :: j <= i < k ==> !IsLineTerminator(s[i]) && !StartsWith(s[i..], d)
    ensures CloseAt(s, d, j) == Some(k)
    decreases k - j
  {
    if j < k {
      CloseAtFirst(s, d, j + 1, k);
    }
  }

  /** In a delimited single line with no delimiter character inside, the
      group closes at the second delimiter. */
  lemma {:induction false} CloseAtWrapped(d: string, mid: string, post: string)
    requires |d| > 0 && d[0] !in mid
    requires forall i :: 0 <= i < |mid| ==> !IsLineTerminator(mid[i])
    ensures CloseAt(d + mid + d + post, d, |d|) == Some(|d| + |mid|)
  {
    var s := d + mid + d + post;
    var k := |d| + |mid|;
    assert s[k..] == d + post;
    forall i | |d| <= i < k
      ensures !IsLineTerminator(s[i]) && !StartsWith(s[i..], d)
    {
      assert s[i] == mid[i - |d|];
      assert s[i..][0] == s[i];
    }
    CloseAtFirst(s, d, |d|, k);
  }

  /** One step of the replacement where a pair matches at the front. */
  lemma {:induction false} ReplacePairsFront(s: string, d: string, k: nat, open: string, close: string)
    requires |d| > 0 && StartsWith(s, d) && CloseAt(s, d, |d|) == Some(k)
    ensures ReplacePairs(s, d, open, close) == open + s[|d|..k] + close + ReplacePairs(s[k + |d|..], d, open, close)
  {
    assert s != [];
  }

  /** A delimited single line with no delimiter character inside becomes
      the tags around it. */
  lemma {:induction false} ReplaceWrappedFront(d: string, mid: string, post: string, open: string, close: string)
    requires |d| > 0 && d[0] !in mid
    requires forall i :: 0 <= i < |mid| ==> !IsLineTerminator(mid[i])
    ensures ReplacePairs(d + mid + d + post, d, open, close) ==
            open + mid + close + ReplacePairs(post, d, open, close)
  {
    var s := d + mid + d + post;
    var k := |d| + |mid|;
    CloseAtWrapped(d, mid, post);
    assert s[..|d|] == d;
    ReplacePairsFront(s, d, k, open, close);
    assert s[|d|..k] == mid;
    assert s[k + |d|..] == post;
  }

  /** The same, after text in front without the delimiter's first
      character, which is copied. */
  lemma {:induction false} ReplaceWrapped(pre: string, d: string, mid: string, post: string, open: string, close: string)
    requires |d| > 0 && d[0] !in pre && d[0] !in mid
    requires forall i :: 0 <= i < |mid| ==> !IsLineTerminator(mid[i])
    ensures ReplacePairs(pre + d + mid + d + post, d, open, close) ==
            pre + open + mid + close + ReplacePairs(post, d, open, close)
  {
    var w := d + mid + d + post;
    var t := ReplacePairs(post, d, open, close);
    Regroup(pre, d, mid, d, post);
    Regroup(pre, open, mid, close, t);
    ReplacePairsPrefix(pre, w, d, open, close);
    ReplaceWrappedFront(d, mid, post, open, close);
  }

  /** Concatenation is associative: five strings regrouped. */
  lemma Regroup(a: string, b: string, c: string, e: string, f: string)
    ensures a + b + c + e + f == a + (b + c + e + f)
  {
  }

  /** The markdown pass: `**x**` becomes strong first, then `*x*` becomes
      emphasis. */
  function Emphasis(content: string): string {
    ReplacePairs(ReplacePairs(content, "**", "<strong>", "</strong>"), "*", "<em>", "</em>")
  }

  /** `s.replace(/x/g, y)` for a literal pattern `x`: scanning left to
      right, each occurrence is replaced and the scan resumes after it. */
  function ReplaceLiteral(s: string, x: string, y: string): string
    requires |x| > 0
    decreases |s|
  {
    if s == [] then []
    else if StartsWith(s, x) then y + ReplaceLiteral(s[|x|..], x, y)
    else [s[0]] + ReplaceLiteral(s[1..], x, y)
  }

  /** Replacing a pattern by itself changes nothing. */
  lemma {:induction false} ReplaceLiteralSame(s: string, x: string)
    requires |x| > 0
    ensures ReplaceLiteral(s, x, x) == s
    decreases |s|
  {
    if s != [] {
      if StartsWith(s, x) {
        ReplaceLiteralSame(s[|x|..], x);
        assert s == s[..|x|] + s[|x|..];
      } else {
        ReplaceLiteralSame(s[1..], x);
        assert s == [s[0]] + s[1..];
      }
    }
  }
}
