/**
 * Finding the extent of an existing header block at the top of a file's lines.
 * Each scan exists twice: as the loops are written, and corrected so that the
 * block found is a prefix made only of comment lines.
 */
module Detect {
  import opened Wrappers
  import opened PyStr
  import opened Symbols

  /** Length of the maximal leading run of lines that start with `sym`. */
  function LeadingRun(lines: seq<string>, sym: string): (n: nat)
    ensures n <= |lines|
    ensures forall i :: 0 <= i < n ==> sym <= lines[i]
    ensures n < |lines| ==> !(sym <= lines[n])
  {
    if |lines| == 0 || !(sym <= lines[0]) then 0
    else 1 + LeadingRun(lines[1..], sym)
  }

  /** A run of `n` lines starting with `sym`, ended by the end of the lines or by a
      line that does not, is the leading run. */
  lemma {:induction false} LeadingRunExact(lines: seq<string>, sym: string, n: nat)
    requires n <= |lines|
    requires forall i :: 0 <= i < n ==> sym <= lines[i]
    requires n < |lines| ==> !(sym <= lines[n])
    ensures LeadingRun(lines, sym) == n
    decreases n
  {
    if n > 0 {
      assert forall i :: 0 <= i < n - 1 ==> lines[1..][i] == lines[i + 1];
      LeadingRunExact(lines[1..], sym, n - 1);
    }
  }

  /** The hash scan as written: every line that starts with `sym` is counted, wherever it is. */
  function CountStarting(lines: seq<string>, sym: string): (n: nat)
    ensures n <= |lines|
    ensures n == |lines| <==> forall i :: 0 <= i < |lines| ==> sym <= lines[i]
  {
    if |lines| == 0 then 0
    else (if sym <= lines[0] then 1 else 0) + CountStarting(lines[1..], sym)
  }

  /** Counting over a concatenation adds up. */
  lemma {:induction false} CountStartingAppend(a: seq<string>, b: seq<string>, sym: string)
    ensures CountStarting(a + b, sym) == CountStarting(a, sym) + CountStarting(b, sym)
    decreases |a|
  {
    if |a| == 0 {
      assert a + b == b;
    } else {
      assert (a + b)[1..] == a[1..] + b;
      CountStartingAppend(a[1..], b, sym);
    }
  }

  /** No line counted means no line starts with `sym`. */
  lemma {:induction false} CountStartingZero(lines: seq<string>, sym: string)
    ensures CountStarting(lines, sym) == 0 <==> forall i :: 0 <= i < |lines| ==> !(sym <= lines[i])
    decreases |lines|
  {
    if |lines| > 0 {
      CountStartingZero(lines[1..], sym);
      assert forall i :: 1 <= i < |lines| ==> lines[1..][i - 1] == lines[i];
    }
  }

  /** The count as written equals the leading run exactly when no line after the run
      starts with `sym`; otherwise the count reaches past the run. */
  lemma {:induction false} CountVersusRun(lines: seq<string>, sym: string)
    ensures LeadingRun(lines, sym) <= CountStarting(lines, sym)
    ensures CountStarting(lines, sym) == LeadingRun(lines, sym) <==>
      forall i :: LeadingRun(lines, sym) <= i < |lines| ==> !(sym <= lines[i])
    decreases |lines|
  {
    if |lines| > 0 {
      if sym <= lines[0] {
        var n := LeadingRun(lines[1..], sym);
        CountVersusRun(lines[1..], sym);
        assert forall i :: n + 1 <= i < |lines| ==> lines[1..][i - 1] == lines[i];
      } else {
        CountStartingZero(lines, sym);
      }
    }
  }

  /** What a line is to the block-comment scan, in the order the scan tests it. */
  datatype LineKind = Closer | Inside | Outside

  function Classify(line: string, t: Triple): LineKind {
    if t.last <= line then Closer
    else if t.middle <= line || t.first <= line || IsBlank(line) then Inside
    else Outside
  }

  /** `lines[..e]` is a block comment: inside lines, then a closer as line `e - 1`. */
  predicate IsStarBlock(lines: seq<string>, t: Triple, e: nat) {
    && 0 < e <= |lines|
    && Classify(lines[e - 1], t) == Closer
    && forall i :: 0 <= i < e - 1 ==> Classify(lines[i], t) == Inside
  }

  /** A block is determined by the lines: it ends at the first closer. */
  lemma StarBlockUnique(lines: seq<string>, t: Triple, e: nat, e': nat)
    requires IsStarBlock(lines, t, e) && IsStarBlock(lines, t, e')
    ensures e == e'
  {
  }

  /** The corrected block scan: the end of the leading block comment, or `None` when a
      line outside any comment, or the end of the file, comes before a closer. */
  function StarBlockEnd(lines: seq<string>, t: Triple): (r: Option<nat>)
    ensures r.Some? ==> IsStarBlock(lines, t, r.value)
    ensures r.None? ==> forall e :: !IsStarBlock(lines, t, e)
  {
    if |lines| == 0 then None
    else
      match Classify(lines[0], t)
      case Closer => Some(1)
      case Outside =>
        assert forall e :: 1 < e <= |lines| ==> !IsStarBlock(lines, t, e) by {
          forall e | 1 < e <= |lines| ensures !IsStarBlock(lines, t, e) {
            assert Classify(lines[0], t) != Inside;
          }
        }
        None
      case Inside =>
        var r := StarBlockEnd(lines[1..], t);
        if r.None? then
          assert forall e :: !IsStarBlock(lines, t, e) by {
            forall e: nat | IsStarBlock(lines, t, e) ensures false {
              assert e > 1;
              assert IsStarBlock(lines[1..], t, e - 1) by {
                assert lines[1..][e - 2] == lines[e - 1];
                forall i | 0 <= i < e - 2 ensures Classify(lines[1..][i], t) == Inside {
                  assert lines[1..][i] == lines[i + 1];
                }
              }
            }
          }
          None
        else
          assert IsStarBlock(lines, t, r.value + 1) by {
            assert lines[r.value] == lines[1..][r.value - 1];
            forall i | 0 <= i < r.value ensures Classify(lines[i], t) == Inside {
              if i > 0 {
                assert lines[i] == lines[1..][i - 1];
              }
            }
          }
          Some(r.value + 1)
  }

  /** The block scan as written: inside lines are counted, lines outside a comment are
      passed over without stopping, and the first closer is counted and ends the scan. */
  function StarCountAsWritten(lines: seq<string>, t: Triple): (n: nat)
    ensures n <= |lines|
  {
    if |lines| == 0 then 0
    else
      match Classify(lines[0], t)
      case Closer => 1
      case Inside => 1 + StarCountAsWritten(lines[1..], t)
      case Outside => StarCountAsWritten(lines[1..], t)
  }

  /** Where a block comment leads the lines, the scan as written finds its end. */
  lemma {:induction false} StarCountAgrees(lines: seq<string>, t: Triple, e: nat)
    requires IsStarBlock(lines, t, e)
    ensures StarCountAsWritten(lines, t) == e
    decreases |lines|
  {
    if e > 1 {
      assert Classify(lines[0], t) == Inside;
      assert IsStarBlock(lines[1..], t, e - 1) by {
        assert lines[1..][e - 2] == lines[e - 1];
        forall i | 0 <= i < e - 2 ensures Classify(lines[1..][i], t) == Inside {
          assert lines[1..][i] == lines[i + 1];
        }
      }
      StarCountAgrees(lines[1..], t, e - 1);
    }
  }
}
