/**
 * The parts of Python's `str` behaviour the license tooling relies on:
 * `splitlines`, `"\n".join`, `strip`/`lstrip`/`rstrip`, `startswith`,
 * `endswith` and `isdecimal`. Strings are sequences of Unicode scalar values.
 */
module PyStr {

  /** Whitespace as Python's `str.isspace` classifies it (what `strip` removes). */
  predicate IsSpace(c: char) {
    || c == ' ' || c == '\t' || c == '\n' || c == '\r'
    || c == '\U{0B}' || c == '\U{0C}'
    || ('\U{1C}' <= c <= '\U{1F}')
    || c == '\U{85}' || c == '\U{A0}' || c == '\U{1680}'
    || ('\U{2000}' <= c <= '\U{200A}')
    || c == '\U{2028}' || c == '\U{2029}' || c == '\U{202F}' || c == '\U{205F}' || c == '\U{3000}'
  }

  /** Line boundaries of `str.splitlines` ("\r\n" counts as one boundary, see `BreakWidth`). */
  predicate IsLineBreak(c: char)
    ensures IsLineBreak(c) ==> IsSpace(c)
  {
    || c == '\n' || c == '\r' || c == '\U{0B}' || c == '\U{0C}'
    || c == '\U{1C}' || c == '\U{1D}' || c == '\U{1E}'
    || c == '\U{85}' || c == '\U{2028}' || c == '\U{2029}'
  }

  predicate NoBreaks(s: string) {
    forall i :: 0 <= i < |s| ==> !IsLineBreak(s[i])
  }

  predicate AllNoBreaks(ls: seq<string>) {
    forall i :: 0 <= i < |ls| ==> NoBreaks(ls[i])
  }

  /** `len(s.strip()) == 0` */
  predicate IsBlank(s: string) {
    forall i :: 0 <= i < |s| ==> IsSpace(s[i])
  }

  /** `s.endswith(p)`; `s.startswith(p)` is Dafny's prefix test `p <= s`. */
  predicate EndsWith(s: string, p: string) {
    |p| <= |s| && s[|s| - |p|..] == p
  }

  /** `s.isdecimal()`, restricted to the ASCII digits. */
  predicate IsDecimal(s: string) {
    |s| > 0 && forall i :: 0 <= i < |s| ==> '0' <= s[i] <= '9'
  }

  /** `"\n".join(ls)` */
  function JoinLines(ls: seq<string>): string {
    if |ls| == 0 then ""
    else if |ls| == 1 then ls[0]
    else ls[0] + "\n" + JoinLines(ls[1..])
  }

  /** Every line followed by a newline: the text of a file whose lines are `ls`. */
  function Unlines(ls: seq<string>): string {
    if |ls| == 0 then "" else ls[0] + "\n" + Unlines(ls[1..])
  }

  /** Index of the first line boundary in `s`, or `|s|` when there is none. */
  function FirstBreak(s: string): (k: nat)
    ensures k <= |s|
    ensures forall i :: 0 <= i < k ==> !IsLineBreak(s[i])
    ensures k < |s| ==> IsLineBreak(s[k])
  {
    if |s| == 0 then 0
    else if IsLineBreak(s[0]) then 0
    else 1 + FirstBreak(s[1..])
  }

  /** Number of characters the boundary at `k` occupies: two for "\r\n", else one. */
  function BreakWidth(s: string, k: nat): nat
    requires k < |s|
  {
    if s[k] == '\r' && k + 1 < |s| && s[k + 1] == '\n' then 2 else 1
  }

  /** `s.splitlines()`: no empty trailing line, boundaries dropped. */
  function SplitLines(s: string): (ls: seq<string>)
    ensures AllNoBreaks(ls)
    ensures |ls| == 0 <==> |s| == 0
    decreases |s|
  {
    if |s| == 0 then []
    else
      var k := FirstBreak(s);
      if k == |s| then [s]
      else
        assert NoBreaks(s[..k]);
        [s[..k]] + SplitLines(s[k + BreakWidth(s, k)..])
  }

  /** `s.lstrip()` */
  function LStrip(s: string): (r: string)
    ensures |r| <= |s| && r == s[|s| - |r|..]
    ensures |r| > 0 ==> !IsSpace(r[0])
    ensures forall i :: 0 <= i < |s| - |r| ==> IsSpace(s[i])
  {
    if |s| > 0 && IsSpace(s[0]) then LStrip(s[1..]) else s
  }

  /** `s.rstrip()` */
  function RStrip(s: string): (r: string)
    ensures r <= s
    ensures |r| > 0 ==> !IsSpace(r[|r| - 1])
    ensures forall i :: |r| <= i < |s| ==> IsSpace(s[i])
  {
    if |s| > 0 && IsSpace(s[|s| - 1]) then RStrip(s[..|s| - 1]) else s
  }

  /** `s.strip()` */
  function Strip(s: string): string {
    RStrip(LStrip(s))
  }

  /** A file text built from break-free lines splits back into exactly those lines,
      whatever text follows them. */
  lemma {:induction false} SplitAfterUnlines(a: seq<string>, t: string)
    requires AllNoBreaks(a)
    ensures SplitLines(Unlines(a) + t) == a + SplitLines(t)
    decreases |a|
  {
    if |a| > 0 {
      var rest := Unlines(a[1..]) + t;
      calc {
        SplitLines(Unlines(a) + t);
        { assert Unlines(a) + t == a[0] + "\n" + rest; }
        SplitLines(a[0] + "\n" + rest);
        { SplitFirstLine(a[0], rest); }
        [a[0]] + SplitLines(rest);
        { SplitAfterUnlines(a[1..], t); }
        [a[0]] + (a[1..] + SplitLines(t));
        { assert a == [a[0]] + a[1..]; }
        a + SplitLines(t);
      }
    } else {
      assert Unlines(a) + t == t;
    }
  }

  /** A break-free line followed by a newline is split off as the first line. */
  lemma SplitFirstLine(x: string, rest: string)
    requires NoBreaks(x)
    ensures SplitLines(x + "\n" + rest) == [x] + SplitLines(rest)
  {
    var s := x + "\n" + rest;
    assert s == x + ("\n" + rest);
    FirstBreakBefore(x, "\n" + rest);
    assert s[|x|] == '\n';
    assert BreakWidth(s, |x|) == 1;
    assert s[..|x|] == x;
    assert s[|x| + 1..] == rest;
  }

  /** The first boundary of `x + y` is at `|x|` when `x` has none and `y` starts with one. */
  lemma {:induction false} FirstBreakBefore(x: string, y: string)
    requires NoBreaks(x) && |y| > 0 && IsLineBreak(y[0])
    ensures FirstBreak(x + y) == |x|
    decreases |x|
  {
    if |x| > 0 {
      var s := x + y;
      assert s[0] == x[0] && !IsLineBreak(s[0]);
      assert s[1..] == x[1..] + y;
      assert NoBreaks(x[1..]) by {
        forall i | 0 <= i < |x[1..]| ensures !IsLineBreak(x[1..][i]) {
          assert x[1..][i] == x[i + 1];
        }
      }
      FirstBreakBefore(x[1..], y);
    } else {
      assert x + y == y;
    }
  }

  /** A text that does not begin with a boundary has a first line starting with its first character. */
  lemma FirstLineStart(t: string)
    requires |t| > 0 && !IsLineBreak(t[0])
    ensures |SplitLines(t)| > 0 && |SplitLines(t)[0]| > 0 && SplitLines(t)[0][0] == t[0]
  {
    var k := FirstBreak(t);
    assert k > 0;
  }

  /** A file text with lines `ls` is their join followed by one newline. */
  lemma {:induction false} UnlinesIsJoinPlusNewline(ls: seq<string>)
    requires |ls| > 0
    ensures Unlines(ls) == JoinLines(ls) + "\n"
    decreases |ls|
  {
    if |ls| > 1 {
      UnlinesIsJoinPlusNewline(ls[1..]);
    }
  }

  /** Joining with a last line that carries its own newline gives the file text of the lines. */
  lemma {:induction false} JoinWithNewlineLast(a: seq<string>, x: string)
    ensures JoinLines(a + [x + "\n"]) == Unlines(a + [x])
    decreases |a|
  {
    if |a| == 0 {
      assert a + [x + "\n"] == [x + "\n"];
      assert a + [x] == [x];
    } else {
      JoinWithNewlineLast(a[1..], x);
      assert (a + [x + "\n"])[1..] == a[1..] + [x + "\n"];
      assert (a + [x])[1..] == a[1..] + [x];
    }
  }

  /** Dropping a prefix of the first part of a three-part concatenation. */
  lemma SliceJoin3<T>(a: seq<T>, m: seq<T>, b: seq<T>, n: nat)
    requires n <= |a|
    ensures (a + m + b)[n..] == a[n..] + m + b
  {
  }

  /** A non-empty sequence is its head before its tail, also in front of more. */
  lemma HeadTail<T>(x: seq<T>, y: seq<T>)
    requires |x| > 0
    ensures x == [x[0]] + x[1..] && x + y == [x[0]] + (x[1..] + y)
  {
  }

  /** The text of a two-line file. */
  lemma UnlinesPair(a: string, b: string)
    ensures Unlines([a, b]) == a + "\n" + b + "\n"
  {
    assert [a, b][1..] == [b];
    assert [b][1..] == [];
    assert Unlines([b]) == b + "\n" + "";
    assert Unlines([a, b]) == a + "\n" + Unlines([b]);
    assert a + "\n" + (b + "\n" + "") == a + "\n" + b + "\n";
  }

  /** A sequence is a prefix of itself with more appended. */
  lemma PrefixOfAppend<T>(p: seq<T>, x: seq<T>)
    ensures p <= p + x
  {
    assert (p + x)[..|p|] == p;
  }

  /** Regrouping a three-part concatenation. */
  lemma AppendAssoc<T>(x: seq<T>, y: seq<T>, z: seq<T>)
    ensures x + (y + z) == (x + y) + z
  {
  }

  /** Regrouping a four-part concatenation. */
  lemma AppendAssoc3<T>(v: seq<T>, x: seq<T>, y: seq<T>, z: seq<T>)
    ensures v + (x + y + z) == (v + x) + y + z
  {
  }

  /** Appending one more line to a non-empty join adds a newline and that line. */
  lemma {:induction false} JoinSnoc(a: seq<string>, x: string)
    requires |a| > 0
    ensures JoinLines(a + [x]) == JoinLines(a) + "\n" + x
    decreases |a|
  {
    if |a| > 1 {
      JoinSnoc(a[1..], x);
      assert (a + [x])[1..] == a[1..] + [x];
    }
  }

  /** The first line is a prefix of the join. */
  lemma {:induction false} JoinStartsWithFirst(ls: seq<string>)
    requires |ls| > 0
    ensures ls[0] <= JoinLines(ls)
  {
  }

  /** The last line is a suffix of the join. */
  lemma {:induction false} JoinEndsWithLast(ls: seq<string>)
    requires |ls| > 0
    ensures EndsWith(JoinLines(ls), ls[|ls| - 1])
    decreases |ls|
  {
    if |ls| > 1 {
      JoinEndsWithLast(ls[1..]);
      var j := JoinLines(ls[1..]);
      assert JoinLines(ls) == (ls[0] + "\n") + j;
    }
  }

  /** Stripping the file text of lines that begin and end with visible characters
      gives back their join: surrounding whitespace comes only from the final newline. */
  lemma StripUnlines(ls: seq<string>)
    requires |ls| > 0
    requires |ls[0]| > 0 && !IsSpace(ls[0][0])
    requires |ls[|ls| - 1]| > 0 && !IsSpace(ls[|ls| - 1][|ls[|ls| - 1]| - 1])
    ensures Strip(Unlines(ls)) == JoinLines(ls)
  {
    var j := JoinLines(ls);
    UnlinesIsJoinPlusNewline(ls);
    JoinStartsWithFirst(ls);
    JoinEndsWithLast(ls);
    assert j[0] == ls[0][0];
    assert j[|j| - 1] == ls[|ls| - 1][|ls[|ls| - 1]| - 1];
    var u := j + "\n";
    assert LStrip(u) == u;
    assert u[..|u| - 1] == j;
    assert RStrip(u) == RStrip(j);
  }

  /** A text that starts with a visible character is its own left-strip. */
  lemma LStripVisible(s: string)
    requires |s| > 0 && !IsSpace(s[0])
    ensures LStrip(s) == s
  {
  }

  /** Concatenating break-free texts gives a break-free text. */
  lemma NoBreaksAppend(a: string, b: string)
    requires NoBreaks(a) && NoBreaks(b)
    ensures NoBreaks(a + b)
  {
    forall i | 0 <= i < |a + b| ensures !IsLineBreak((a + b)[i]) {
      if i >= |a| {
        assert (a + b)[i] == b[i - |a|];
      }
    }
  }

  /** The first line of a non-empty text is a prefix of it. */
  lemma FirstLineIsPrefix(t: string)
    requires |t| > 0
    ensures |SplitLines(t)| > 0 && SplitLines(t)[0] <= t
  {
  }

  /** A non-empty text without boundaries is one line. */
  lemma SplitSingleLine(x: string)
    requires |x| > 0 && NoBreaks(x)
    ensures SplitLines(x) == [x]
  {
    assert FirstBreak(x) == |x|;
  }

  /** Splitting the file text of break-free lines gives the lines back. */
  lemma SplitUnlines(ls: seq<string>)
    requires AllNoBreaks(ls)
    ensures SplitLines(Unlines(ls)) == ls
  {
    SplitAfterUnlines(ls, "");
    assert Unlines(ls) + "" == Unlines(ls);
  }
}
