/** Joining lines with a newline separator, as Python's `"\n".join(lines)` does,
    and splitting a string back into its lines, which inverts the join on
    newline-free lines; every string is the join of its split. */
module Text {

  const Newline: char := '\n'

  /** `"\n".join(lines)`: the lines in order, one separator between neighbours,
      no separator before the first line or after the last. */
  function Join(lines: seq<string>): string
  {
    if |lines| == 0 then ""
    else if |lines| == 1 then lines[0]
    else lines[0] + [Newline] + Join(lines[1..])
  }

  /** `s.split("\n")`: the maximal newline-free pieces of `s`, in order. */
  function Split(s: string): (pieces: seq<string>)
    ensures |pieces| > 0
    ensures forall k :: 0 <= k < |pieces| ==> Newline !in pieces[k]
    decreases |s|
  {
    if |s| == 0 then [""]
    else
      var rest := Split(s[1..]);
      if s[0] == Newline then [""] + rest
      else [[s[0]] + rest[0]] + rest[1..]
  }

  /** The joined string begins with the first line and ends with the last one. */
  lemma {:induction false} JoinEnds(lines: seq<string>)
    requires |lines| > 0
    ensures lines[0] <= Join(lines)
    ensures |lines[|lines| - 1]| <= |Join(lines)|
    ensures Join(lines)[|Join(lines)| - |lines[|lines| - 1]|..] == lines[|lines| - 1]
  {
    if |lines| > 1 {
      JoinEnds(lines[1..]);
      var tail := Join(lines[1..]);
      var last := lines[|lines| - 1];
      assert lines[1..][|lines[1..]| - 1] == last;
      var whole := lines[0] + [Newline] + tail;
      assert whole[|whole| - |last|..] == tail[|tail| - |last|..];
    }
  }

  /** Appending one more line adds exactly one separator and that line. */
  lemma {:induction false} JoinSnoc(lines: seq<string>, line: string)
    requires |lines| > 0
    ensures Join(lines + [line]) == Join(lines) + [Newline] + line
  {
    if |lines| == 1 {
      assert (lines + [line])[1..] == [line];
    } else {
      assert (lines + [line])[1..] == lines[1..] + [line];
      JoinSnoc(lines[1..], line);
    }
  }

  /** A string without a newline is a single piece. */
  lemma {:induction false} SplitSingle(a: string)
    requires Newline !in a
    ensures Split(a) == [a]
    decreases |a|
  {
    if |a| > 0 {
      assert Newline !in a[1..] by {
        forall k | 0 <= k < |a[1..]| ensures a[1..][k] != Newline {
          assert a[1..][k] == a[k + 1];
        }
      }
      SplitSingle(a[1..]);
      assert [a[0]] + a[1..] == a;
    }
  }

  /** Splitting stops at the first newline. */
  lemma {:induction false} SplitCons(a: string, b: string)
    requires Newline !in a
    ensures Split(a + [Newline] + b) == [a] + Split(b)
    decreases |a|
  {
    var s := a + [Newline] + b;
    if |a| == 0 {
      assert s[1..] == b;
    } else {
      assert s[1..] == a[1..] + [Newline] + b;
      assert Newline !in a[1..] by {
        forall k | 0 <= k < |a[1..]| ensures a[1..][k] != Newline {
          assert a[1..][k] == a[k + 1];
        }
      }
      SplitCons(a[1..], b);
      assert [a[0]] + a[1..] == a;
    }
  }

  /** Round trip one way: newline-free lines are recovered from their join. */
  lemma {:induction false} SplitJoin(lines: seq<string>)
    requires |lines| > 0
    requires forall k :: 0 <= k < |lines| ==> Newline !in lines[k]
    ensures Split(Join(lines)) == lines
  {
    if |lines| == 1 {
      SplitSingle(lines[0]);
    } else {
      SplitJoin(lines[1..]);
      SplitCons(lines[0], Join(lines[1..]));
      assert [lines[0]] + lines[1..] == lines;
    }
  }

  /** Round trip the other way: every string is the join of its pieces. */
  lemma {:induction false} JoinSplit(s: string)
    ensures Join(Split(s)) == s
    decreases |s|
  {
    if |s| > 0 {
      JoinSplit(s[1..]);
      var rest := Split(s[1..]);
      if s[0] == Newline {
        assert ([""] + rest)[1..] == rest;
        assert [s[0]] + s[1..] == s;
      } else if |rest| == 1 {
        assert [s[0]] + s[1..] == s;
      } else {
        var pieces := [[s[0]] + rest[0]] + rest[1..];
        assert pieces[1..] == rest[1..];
        assert pieces[1..][1..] == rest[1..][1..];
        assert Join(rest) == rest[0] + [Newline] + Join(rest[1..]);
        assert [s[0]] + s[1..] == s;
      }
    }
  }
}
