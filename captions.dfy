/** The caption file `save_transcription` writes when asked to: one block per
    segment of the transcript, in segment order, numbered from 1. Each block is
    the segment's number, its timing line, its stripped text and an empty
    line, every one of them followed by a newline. */
module Captions {
  import opened Wrappers
  import opened Text
  import opened Decimal
  import opened Timestamp

  /** A timed piece of the engine's transcript, its ends in microseconds. */
  datatype Segment = Segment(start: nat, end: nat, text: string)

  /** `str(timedelta(start)) + ' --> ' + str(timedelta(end))`. */
  function TimingLine(start: nat, end: nat): (r: string)
  {
    Format(start) + " --> " + Format(end)
  }

  /** The four lines written for the segment numbered `index`. */
  function BlockLines(index: nat, seg: Segment): (r: seq<string>)
  {
    [NatToString(index), TimingLine(seg.start, seg.end), Strip(seg.text), ""]
  }

  /** Lines written one after another, each followed by a newline. */
  function Terminated(lines: seq<string>): (r: string)
  {
    if |lines| == 0 then "" else lines[0] + "\n" + Terminated(lines[1..])
  }

  /** The text written for the segment numbered `index`. */
  function Block(index: nat, seg: Segment): (r: string)
  {
    Terminated(BlockLines(index, seg))
  }

  /** The blocks of lines for `segs`, that of `segs[k]` numbered `k + 1`. */
  function Blocks(segs: seq<Segment>): (r: seq<seq<string>>)
  {
    seq(|segs|, k requires 0 <= k < |segs| => BlockLines(k + 1, segs[k]))
  }

  /** Blocks of lines one after another. */
  function Flatten<T>(blocks: seq<seq<T>>): (r: seq<T>)
  {
    if |blocks| == 0 then [] else blocks[0] + Flatten(blocks[1..])
  }

  /** The whole caption file for a transcript's segments: the lines of every
      block, in segment order, each followed by a newline. */
  function CaptionText(segs: seq<Segment>): (r: string)
  {
    Terminated(Flatten(Blocks(segs)))
  }

  lemma {:induction false} FlattenAppend<T>(a: seq<seq<T>>, b: seq<seq<T>>)
    ensures Flatten(a + b) == Flatten(a) + Flatten(b)
  {
    if |a| > 0 {
      FlattenAppend(a[1..], b);
      assert (a + b)[1..] == a[1..] + b;
    } else {
      assert a + b == b;
    }
  }

  lemma {:induction false} TerminatedAppend(a: seq<string>, b: seq<string>)
    ensures Terminated(a + b) == Terminated(a) + Terminated(b)
  {
    if |a| > 0 {
      TerminatedAppend(a[1..], b);
      assert (a + b)[1..] == a[1..] + b;
    } else {
      assert a + b == b;
    }
  }

  /** One more block written after the first `i`. */
  lemma WriteBlock(blocks: seq<seq<string>>, i: nat)
    requires i < |blocks|
    ensures Terminated(Flatten(blocks[..i + 1])) == Terminated(Flatten(blocks[..i])) + Terminated(blocks[i])
  {
    var block := blocks[i];
    assert blocks[..i + 1] == blocks[..i] + [block];
    FlattenAppend(blocks[..i], [block]);
    assert Flatten([block]) == block + Flatten([]);
    assert block + [] == block;
    TerminatedAppend(Flatten(blocks[..i]), block);
  }

  lemma BlockAt(segs: seq<Segment>, i: nat)
    requires i < |segs|
    ensures |Blocks(segs)| == |segs| && Blocks(segs)[i] == BlockLines(i + 1, segs[i])
  {
  }

  /** The loop of `save_transcription`: for each segment in order, its number,
      its timing line, its stripped text and an empty line, each written with
      a newline after it. */
  method RenderCaptions(segs: seq<Segment>) returns (text: string)
    ensures text == CaptionText(segs)
  {
    text := "";
    for i := 0 to |segs|
      invariant text == Terminated(Flatten(Blocks(segs)[..i]))
    {
      WriteBlock(Blocks(segs), i);
      BlockAt(segs, i);
      text := text + Block(i + 1, segs[i]);
    }
    assert Blocks(segs)[..|segs|] == Blocks(segs);
  }

  /** Where line `j` of block `i` sits among the lines of blocks of four. */
  lemma {:induction false} FlattenAt<T>(blocks: seq<seq<T>>, i: nat, j: nat)
    requires forall k :: 0 <= k < |blocks| ==> |blocks[k]| == 4
    requires i < |blocks| && j < 4
    ensures |Flatten(blocks)| == 4 * |blocks|
    ensures Flatten(blocks)[4 * i + j] == blocks[i][j]
  {
    if i > 0 {
      FlattenAt(blocks[1..], i - 1, j);
      assert blocks[1..][i - 1] == blocks[i];
    } else if |blocks| > 1 {
      FlattenAt(blocks[1..], 0, j);
    } else {
      assert blocks[1..] == [];
    }
  }

  /** No segment's stripped text spreads over several lines. */
  predicate SingleLineTexts(segs: seq<Segment>)
  {
    forall i :: 0 <= i < |segs| ==> '\n' !in Strip(segs[i].text)
  }

  lemma FormatHasNoNewline(t: nat)
    ensures '\n' !in Format(t) && '>' !in Format(t)
  {
    var head := DayPrefix(Days(t)) + NatToString(Hours(t));
    var tail := Padded(Seconds(t), 2) + Fraction(Micros(t));
    FormatFields(t);
    JoinThree(head, Padded(Minutes(t), 2), tail, ':');
    DigitsHaveNoSeparator(NatToString(Days(t)));
    DigitsHaveNoSeparator(NatToString(Hours(t)));
    DigitsHaveNoSeparator(Padded(Minutes(t), 2));
    DigitsHaveNoSeparator(Padded(Seconds(t), 2));
    if Micros(t) != 0 {
      DigitsHaveNoSeparator(Padded(Micros(t), 6));
    }
  }

  lemma TimingLineHasNoNewline(start: nat, end: nat)
    ensures '\n' !in TimingLine(start, end)
  {
    FormatHasNoNewline(start);
    FormatHasNoNewline(end);
  }

  /** Newline-terminated lines split back into those lines and a final
      empty piece. */
  lemma {:induction false} SplitTerminated(lines: seq<string>)
    requires forall i :: 0 <= i < |lines| ==> '\n' !in lines[i]
    ensures Split(Terminated(lines), '\n') == lines + [""]
  {
    if |lines| == 0 {
      assert Split("", '\n') == [""];
    } else {
      SplitTerminated(lines[1..]);
      SplitCons(lines[0], Terminated(lines[1..]), '\n');
      assert lines == [lines[0]] + lines[1..];
    }
  }

  /** Line `j` of the block of `segs[i]` in the caption text's lines. */
  lemma LineAt(segs: seq<Segment>, i: nat, j: nat)
    requires i < |segs| && j < 4
    ensures |Flatten(Blocks(segs))| == 4 * |segs|
    ensures Flatten(Blocks(segs))[4 * i + j] == BlockLines(i + 1, segs[i])[j]
  {
    FlattenAt(Blocks(segs), i, j);
  }

  /** No line of the caption text holds a newline. */
  lemma LinesAreSingle(segs: seq<Segment>)
    requires SingleLineTexts(segs)
    ensures forall k :: 0 <= k < |Flatten(Blocks(segs))| ==> '\n' !in Flatten(Blocks(segs))[k]
  {
    var lines := Flatten(Blocks(segs));
    if |segs| > 0 {
      LineAt(segs, 0, 0);
    } else {
      assert lines == [];
    }
    forall k | 0 <= k < |lines|
      ensures '\n' !in lines[k]
    {
      var i, j := k / 4, k % 4;
      LineAt(segs, i, j);
      DigitsHaveNoSeparator(NatToString(i + 1));
      TimingLineHasNoNewline(segs[i].start, segs[i].end);
    }
  }

  /** The caption text of N segments has 4N newline-terminated lines and
      nothing after the last one; block `i` is, in order, the number `i + 1`,
      the timing line of segment `i`, its stripped text and an empty line. */
  lemma CaptionLayout(segs: seq<Segment>)
    requires SingleLineTexts(segs)
    ensures var lines := Split(CaptionText(segs), '\n');
            && |lines| == 4 * |segs| + 1 && lines[4 * |segs|] == ""
            && forall i :: 0 <= i < |segs| ==>
                 && lines[4 * i] == NatToString(i + 1)
                 && lines[4 * i + 1] == TimingLine(segs[i].start, segs[i].end)
                 && lines[4 * i + 2] == Strip(segs[i].text)
                 && lines[4 * i + 3] == ""
  {
    LinesAreSingle(segs);
    SplitTerminated(Flatten(Blocks(segs)));
    var lines := Split(CaptionText(segs), '\n');
    if |segs| > 0 {
      LineAt(segs, 0, 0);
    }
    assert lines[..|Flatten(Blocks(segs))|] == Flatten(Blocks(segs));
    forall i | 0 <= i < |segs|
      ensures lines[4 * i] == NatToString(i + 1)
      ensures lines[4 * i + 1] == TimingLine(segs[i].start, segs[i].end)
      ensures lines[4 * i + 2] == Strip(segs[i].text)
      ensures lines[4 * i + 3] == ""
    {
      BlockInLines(segs, lines, i);
    }
  }

  lemma BlockInLines(segs: seq<Segment>, lines: seq<string>, i: nat)
    requires |lines| >= 4 * |segs| && |lines| > |Flatten(Blocks(segs))|
    requires lines[..|Flatten(Blocks(segs))|] == Flatten(Blocks(segs))
    requires i < |segs|
    ensures lines[4 * i] == NatToString(i + 1)
    ensures lines[4 * i + 1] == TimingLine(segs[i].start, segs[i].end)
    ensures lines[4 * i + 2] == Strip(segs[i].text)
    ensures lines[4 * i + 3] == ""
  {
    BlocksOfFour(segs);
    TerminatedBlockAt(Blocks(segs), lines, i);
    BlockAt(segs, i);
  }

  lemma BlocksOfFour(segs: seq<Segment>)
    ensures forall k :: 0 <= k < |Blocks(segs)| ==> |Blocks(segs)[k]| == 4
  {
  }

  /** Block `i`'s lines among the newline-separated pieces of blocks of four. */
  lemma TerminatedBlockAt<T>(blocks: seq<seq<T>>, lines: seq<T>, i: nat)
    requires forall k :: 0 <= k < |blocks| ==> |blocks[k]| == 4
    requires i < |blocks|
    requires |lines| >= 4 * |blocks| && |lines| > |Flatten(blocks)|
    requires lines[..|Flatten(blocks)|] == Flatten(blocks)
    ensures lines[4 * i] == blocks[i][0] && lines[4 * i + 1] == blocks[i][1]
    ensures lines[4 * i + 2] == blocks[i][2] && lines[4 * i + 3] == blocks[i][3]
  {
    FlattenAt(blocks, i, 0);
    FlattenAt(blocks, i, 1);
    FlattenAt(blocks, i, 2);
    FlattenAt(blocks, i, 3);
    assert lines[4 * i] == lines[..|Flatten(blocks)|][4 * i];
    assert lines[4 * i + 1] == lines[..|Flatten(blocks)|][4 * i + 1];
    assert lines[4 * i + 2] == lines[..|Flatten(blocks)|][4 * i + 2];
    assert lines[4 * i + 3] == lines[..|Flatten(blocks)|][4 * i + 3];
  }

  // Reading a caption file back.

  /** A timing line, `start --> end`, back into microseconds. */
  function ParseTiming(line: string): (r: Option<(nat, nat)>)
  {
    var halves := Split(line, '>');
    if |halves| != 2 then None
    else
      var left, right := halves[0], halves[1];
      if |left| < 3 || left[|left| - 3..] != " --" || |right| < 1 || right[0] != ' ' then None
      else
        var start :- Parse(left[..|left| - 3]);
        var end :- Parse(right[1..]);
        Some((start, end))
  }

  /** Blocks of four lines, numbered consecutively from `next`. */
  function ParseBlocks(lines: seq<string>, next: nat): (r: Option<seq<Segment>>)
    decreases |lines|
  {
    if |lines| == 0 then Some([])
    else if |lines| < 4 then None
    else
      var n :- ParseNat(lines[0]);
      if n != next || lines[3] != "" then None
      else
        var times :- ParseTiming(lines[1]);
        var rest :- ParseBlocks(lines[4..], next + 1);
        Some([Segment(times.0, times.1, lines[2])] + rest)
  }

  /** A whole caption file back into its segments. */
  function ParseCaptions(text: string): (r: Option<seq<Segment>>)
  {
    var lines := Split(text, '\n');
    if lines[|lines| - 1] != "" then None else ParseBlocks(lines[..|lines| - 1], 1)
  }

  /** The segments with their text stripped, as the caption file keeps them. */
  function Trimmed(segs: seq<Segment>): (r: seq<Segment>)
    ensures |r| == |segs|
    ensures forall i :: 0 <= i < |segs| ==>
              r[i].start == segs[i].start && r[i].end == segs[i].end && r[i].text == Strip(segs[i].text)
  {
    if |segs| == 0 then [] else [segs[0].(text := Strip(segs[0].text))] + Trimmed(segs[1..])
  }

  /** A timing line reads back as the two times it was written from. */
  lemma ParseTimingLine(start: nat, end: nat)
    ensures ParseTiming(TimingLine(start, end)) == Some((start, end))
  {
    var a, b := Format(start), Format(end);
    var left, right := a + " --", " " + b;
    FormatHasNoNewline(start);
    FormatHasNoNewline(end);
    JoinTwo(left, right, '>');
    assert TimingLine(start, end) == Join([left, right], '>');
    assert '>' !in left;
    assert '>' !in right;
    SplitJoin([left, right], '>');
    assert left[..|left| - 3] == a;
    assert left[|left| - 3..] == " --";
    assert right[1..] == b;
    ParseFormat(start);
    ParseFormat(end);
  }

  /** Four lines that read back as a block, followed by lines that read back. */
  lemma ParseBlockStep(lines: seq<string>, next: nat, times: (nat, nat), rest: seq<Segment>)
    requires |lines| >= 4 && ParseNat(lines[0]) == Some(next) && lines[3] == ""
    requires ParseTiming(lines[1]) == Some(times)
    requires ParseBlocks(lines[4..], next + 1) == Some(rest)
    ensures ParseBlocks(lines, next) == Some([Segment(times.0, times.1, lines[2])] + rest)
  {
  }

  lemma BlockLinesAt(index: nat, seg: Segment, rest: seq<string>)
    ensures var lines := BlockLines(index, seg) + rest;
            && |lines| >= 4
            && lines[0] == NatToString(index)
            && lines[1] == TimingLine(seg.start, seg.end)
            && lines[2] == Strip(seg.text)
            && lines[3] == ""
            && lines[4..] == rest
  {
  }

  /** One block, followed by lines that read back, reads back. */
  lemma ParseBlock(index: nat, seg: Segment, rest: seq<string>, after: seq<Segment>)
    requires ParseBlocks(rest, index + 1) == Some(after)
    ensures ParseBlocks(BlockLines(index, seg) + rest, index)
            == Some([Segment(seg.start, seg.end, Strip(seg.text))] + after)
  {
    BlockLinesAt(index, seg, rest);
    ParseNatToString(index);
    ParseTimingLine(seg.start, seg.end);
    ParseBlockStep(BlockLines(index, seg) + rest, index, (seg.start, seg.end), after);
  }

  lemma {:induction false} ParseFlatten(blocks: seq<seq<string>>, segs: seq<Segment>, next: nat)
    requires |blocks| == |segs|
    requires forall k :: 0 <= k < |segs| ==> blocks[k] == BlockLines(next + k, segs[k])
    ensures ParseBlocks(Flatten(blocks), next) == Some(Trimmed(segs))
  {
    if |segs| > 0 {
      forall k | 0 <= k < |segs| - 1
        ensures blocks[1..][k] == BlockLines(next + 1 + k, segs[1..][k])
      {
        assert blocks[1..][k] == blocks[k + 1];
        assert next + 1 + k == next + (k + 1);
      }
      ParseFlatten(blocks[1..], segs[1..], next + 1);
      ParseBlock(next, segs[0], Flatten(blocks[1..]), Trimmed(segs[1..]));
    }
  }

  /** Reading the caption file back gives the segments it was written from,
      in order and with their times exact, their text stripped: the file
      holds exactly one block per segment, numbered 1 to N. */
  lemma CaptionsRoundTrip(segs: seq<Segment>)
    requires SingleLineTexts(segs)
    ensures ParseCaptions(CaptionText(segs)) == Some(Trimmed(segs))
  {
    LinesAreSingle(segs);
    SplitTerminated(Flatten(Blocks(segs)));
    var lines := Flatten(Blocks(segs)) + [""];
    assert lines[..|lines| - 1] == Flatten(Blocks(segs));
    ParseFlatten(Blocks(segs), segs, 1);
  }
}
