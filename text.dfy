/**
 * Joining lines with a newline and splitting text at newlines, as Python's
 * `'\n'.join(lines)` and `text.split('\n')` do.  The generator joins the
 * rendered lines; the window splits the joined text again to count lines.
 */
module Text {

  /** Number of occurrences of `c` in `s`. */
  function Count(s: string, c: char): nat
  {
    if |s| == 0 then 0 else (if s[0] == c then 1 else 0) + Count(s[1..], c)
  }

  /** Position of the first `c` in `s`. */
  function IndexOf(s: string, c: char): (i: nat)
    requires c in s
    ensures i < |s| && s[i] == c && c !in s[..i]
  {
    if s[0] == c then 0 else 1 + IndexOf(s[1..], c)
  }

  /** Total number of characters of the lines. */
  function TotalLength(lines: seq<string>): nat
  {
    if |lines| == 0 then 0 else |lines[0]| + TotalLength(lines[1..])
  }

  /**
   * Python's `'\n'.join(lines)`: no separator before the first or after the
   * last line, so the text holds the lines' characters and one separator
   * between each two of them.
   */
  function Join(lines: seq<string>): (r: string)
    ensures |lines| >= 1 ==> |r| == TotalLength(lines) + |lines| - 1
  {
    if |lines| == 0 then ""
    else if |lines| == 1 then lines[0]
    else lines[0] + "\n" + Join(lines[1..])
  }

  /**
   * Python's `s.split('\n')`: the pieces between newlines, always at least
   * one of them (`"".split('\n')` is `[""]`).
   */
  function Split(s: string): (parts: seq<string>)
    ensures |parts| == Count(s, '\n') + 1
    ensures forall k :: 0 <= k < |parts| ==> '\n' !in parts[k]
    decreases |s|
  {
    if '\n' !in s then
      NoOccurrenceCountsZero(s, '\n');
      [s]
    else
      var i := IndexOf(s, '\n');
      CountSplit(s, i, '\n');
      [s[..i]] + Split(s[i + 1..])
  }

  /** No line of the sequence holds a newline. */
  predicate NoNewlines(lines: seq<string>)
  {
    forall k :: 0 <= k < |lines| ==> '\n' !in lines[k]
  }

  lemma {:induction false} NoOccurrenceCountsZero(s: string, c: char)
    requires c !in s
    ensures Count(s, c) == 0
  {
    if |s| > 0 {
      assert c !in s[1..] by { assert forall k :: 0 <= k < |s| - 1 ==> s[1..][k] == s[k + 1]; }
      NoOccurrenceCountsZero(s[1..], c);
    }
  }

  lemma {:induction false} CountAppend(a: string, b: string, c: char)
    ensures Count(a + b, c) == Count(a, c) + Count(b, c)
  {
    if |a| == 0 {
      assert a + b == b;
    } else {
      assert (a + b)[1..] == a[1..] + b;
      CountAppend(a[1..], b, c);
    }
  }

  lemma CountSplit(s: string, i: nat, c: char)
    requires i < |s| && s[i] == c && c !in s[..i]
    ensures Count(s, c) == 1 + Count(s[i + 1..], c)
  {
    assert s == s[..i] + [c] + s[i + 1..];
    CountAppend(s[..i] + [c], s[i + 1..], c);
    CountAppend(s[..i], [c], c);
    NoOccurrenceCountsZero(s[..i], c);
  }

  /**
   * Splitting `a + "\n" + b` where `a` holds no newline cuts exactly after
   * `a`, leaving `b` to be split further.
   */
  lemma SplitCons(a: string, b: string)
    requires '\n' !in a
    ensures Split(a + "\n" + b) == [a] + Split(b)
  {
    var s := a + "\n" + b;
    assert s[|a|] == '\n';
    var i := IndexOf(s, '\n');
    assert s[..|a|] == a;
    assert i == |a|;
    assert s[i + 1..] == b;
  }

  /**
   * Splitting the joined lines gives the lines back, provided there is at
   * least one and none holds a newline; in particular the joined text has
   * exactly `|lines|` newline-separated pieces.
   */
  lemma {:induction false} SplitJoin(lines: seq<string>)
    requires |lines| >= 1 && NoNewlines(lines)
    ensures Split(Join(lines)) == lines
  {
    if |lines| > 1 {
      var rest := lines[1..];
      assert NoNewlines(rest) by {
        forall k | 0 <= k < |rest| ensures '\n' !in rest[k] {
          assert rest[k] == lines[k + 1];
        }
      }
      assert Join(lines) == lines[0] + "\n" + Join(rest);
      SplitCons(lines[0], Join(rest));
      SplitJoin(rest);
      assert [lines[0]] + rest == lines;
    }
  }

  /**
   * The joined text has one newline fewer than it has lines, and it is empty
   * exactly when there are no lines or the single line is empty.
   */
  lemma {:induction false} JoinShape(lines: seq<string>)
    requires NoNewlines(lines)
    ensures |lines| >= 1 ==> Count(Join(lines), '\n') == |lines| - 1
    ensures Join(lines) == "" <==> |lines| == 0 || lines == [""]
  {
    if |lines| >= 1 {
      SplitJoin(lines);
    }
    if |lines| >= 2 {
      assert Join(lines)[|lines[0]|] == '\n';
    }
  }

  /**
   * Joining the pieces of a split gives the text back: with the pieces being
   * free of newlines, this pins `Split` down to Python's `split('\n')`.
   */
  lemma {:induction false} JoinSplit(s: string)
    ensures Join(Split(s)) == s
    decreases |s|
  {
    if '\n' in s {
      var i := IndexOf(s, '\n');
      var rest := s[i + 1..];
      JoinSplit(rest);
      assert Split(s) == [s[..i]] + Split(rest);
      assert |Split(rest)| >= 1;
      assert Join(Split(s)) == s[..i] + "\n" + Join(Split(rest));
      assert s == s[..i] + "\n" + rest;
    }
  }
}
