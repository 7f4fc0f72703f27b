/**
 * `Console.center_text` with an explicit width: every line of the text is
 * padded on the left so that it sits in the middle of `width` columns.
 */
module Console {

  /** `text.split('\n')`: the pieces between the line breaks; an empty text is one empty line. */
  function SplitLines(s: string): (lines: seq<string>)
    ensures |lines| >= 1
    ensures forall k :: 0 <= k < |lines| ==> '\n' !in lines[k]
    decreases |s|
  {
    if s == [] then [""]
    else
      var rest := SplitLines(s[1..]);
      if s[0] == '\n' then [""] + rest
      else [[s[0]] + rest[0]] + rest[1..]
  }

  /** `'\n'.join(lines)`. */
  function JoinLines(lines: seq<string>): string
    decreases |lines|
  {
    if |lines| == 0 then ""
    else if |lines| == 1 then lines[0]
    else lines[0] + "\n" + JoinLines(lines[1..])
  }

  lemma {:induction false} JoinSplit(s: string)
    ensures JoinLines(SplitLines(s)) == s
    decreases |s|
  {
    if s != [] {
      var rest := SplitLines(s[1..]);
      JoinSplit(s[1..]);
      if s[0] == '\n' {
        assert ([""] + rest)[1..] == rest;
      } else {
        var lines := [[s[0]] + rest[0]] + rest[1..];
        assert lines[1..] == rest[1..];
        if |rest| > 1 {
          assert JoinLines(rest) == rest[0] + "\n" + JoinLines(rest[1..]);
        }
      }
    }
  }

  /** Lines without line breaks, joined, split back into the same lines. */
  lemma {:induction false} SplitJoin(lines: seq<string>)
    requires |lines| >= 1
    requires forall k :: 0 <= k < |lines| ==> '\n' !in lines[k]
    ensures SplitLines(JoinLines(lines)) == lines
    decreases |lines|, |lines[0]|
  {
    if |lines| == 1 {
      SplitLine(lines[0]);
    } else if lines[0] == [] {
      var tail := JoinLines(lines[1..]);
      assert JoinLines(lines) == "\n" + tail;
      assert ("\n" + tail)[1..] == tail;
      SplitJoin(lines[1..]);
      assert [""] + lines[1..] == lines;
    } else {
      var c := lines[0][0];
      var shorter := [lines[0][1..]] + lines[1..];
      assert '\n' !in shorter[0];
      assert forall k :: 1 <= k < |shorter| ==> shorter[k] == lines[k];
      SplitJoin(shorter);
      assert shorter[1..] == lines[1..];
      assert JoinLines(lines) == [c] + JoinLines(shorter);
      assert ([c] + JoinLines(shorter))[1..] == JoinLines(shorter);
      assert [c] + lines[0][1..] == lines[0];
      assert [lines[0]] + lines[1..] == lines;
    }
  }

  /** A single line without line breaks is split into itself. */
  lemma {:induction false} SplitLine(line: string)
    requires '\n' !in line
    ensures SplitLines(line) == [line]
    decreases |line|
  {
    if line != [] {
      assert '\n' !in line[1..];
      SplitLine(line[1..]);
      assert [line[0]] + line[1..] == line;
    }
  }

  function Spaces(n: nat): (s: string)
    ensures |s| == n && forall k :: 0 <= k < n ==> s[k] == ' '
  {
    seq(n, k => ' ')
  }

  /**
   * The left padding of a line of length `len`: half the free columns,
   * rounded down (Python's `//`, which for the divisor 2 agrees with
   * Dafny's `/`), and none when there are none free.
   */
  function Padding(width: int, len: nat): nat {
    if width - len <= 0 then 0 else (width - len) / 2
  }

  function CenterLine(line: string, width: int): string {
    Spaces(Padding(width, |line|)) + line
  }

  /**
   * A centred line is spaces followed by the line unchanged; a line that
   * fills the width is left as it is; the line sits in the middle, the left
   * margin at most one column narrower than the right; the result is never
   * longer than the width or the line.
   */
  lemma CenterLineFacts(line: string, width: int)
    ensures var r := CenterLine(line, width);
      var pad := |r| - |line|;
      && pad >= 0 && r[pad..] == line
      && (forall k :: 0 <= k < pad ==> r[k] == ' ')
      && (|line| >= width ==> r == line)
      && (|line| < width ==> 0 <= (width - |r|) - pad <= 1)
      && (|r| <= width || |r| == |line|)
  {
    var r := CenterLine(line, width);
    var pad := Padding(width, |line|);
    assert r[pad..] == line;
  }

  /** The text with every line centred, as the source's loop builds it. */
  function Centered(text: string, width: int): string {
    var lines := SplitLines(text);
    JoinLines(seq(|lines|, k requires 0 <= k < |lines| => CenterLine(lines[k], width)))
  }

  /** Centring keeps the number of lines, and line k of the result is line k of the text, centred. */
  lemma CenteredLines(text: string, width: int)
    ensures SplitLines(Centered(text, width)) ==
      seq(|SplitLines(text)|, k requires 0 <= k < |SplitLines(text)| => CenterLine(SplitLines(text)[k], width))
    ensures |SplitLines(Centered(text, width))| == |SplitLines(text)|
  {
    var lines := SplitLines(text);
    var centred := seq(|lines|, k requires 0 <= k < |lines| => CenterLine(lines[k], width));
    forall k | 0 <= k < |centred|
      ensures '\n' !in centred[k]
    {
      assert '\n' !in lines[k];
      assert '\n' !in Spaces(Padding(width, |lines[k]|));
    }
    SplitJoin(centred);
  }

  /** Width 0 (or less) changes nothing. */
  lemma NoWidthNoChange(text: string, width: int)
    requires width <= 0
    ensures Centered(text, width) == text
  {
    var lines := SplitLines(text);
    var centred := seq(|lines|, k requires 0 <= k < |lines| => CenterLine(lines[k], width));
    forall k | 0 <= k < |lines|
      ensures centred[k] == lines[k]
    {
      assert Padding(width, |lines[k]|) == 0;
      assert Spaces(0) + lines[k] == lines[k];
    }
    assert centred == lines;
    JoinSplit(text);
  }

  /** `center_text(text, width)`: each line padded, collected in order, joined with line breaks. */
  method CenterText(text: string, width: int) returns (result: string)
    ensures result == Centered(text, width)
  {
    var lines := SplitLines(text);
    var centeredLines: seq<string> := [];
    for i := 0 to |lines|
      invariant centeredLines == seq(i, k requires 0 <= k < i => CenterLine(lines[k], width))
    {
      var padding := if width - |lines[i]| <= 0 then 0 else (width - |lines[i]|) / 2;
      centeredLines := centeredLines + [Spaces(padding) + lines[i]];
    }
    result := JoinLines(centeredLines);
  }
}
