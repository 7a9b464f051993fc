/**
 * The SubRip (.srt) text that `save_srt` writes: for the i-th subtitle
 * (counting from 1) the four lines `i`, timestamp, text and an empty line,
 * all lines joined with "\n".
 *
 * `Parse` reads such a text back; it is the inverse against which the
 * serialiser is checked.
 */
module Subrip {
  import opened Strings
  import opened Wrappers

  /** One `(timestamp, text)` pair of the subtitle list. */
  datatype Subtitle = Subtitle(timestamp: string, text: string)

  /** The four lines written for `s` when it is numbered `index`. */
  function Block(index: nat, s: Subtitle): seq<string> {
    [NatToString(index), s.timestamp, s.text, ""]
  }

  /** The lines for `subs`, numbered from `first` on. */
  function LinesFrom(subs: seq<Subtitle>, first: nat): seq<string>
    decreases |subs|
  {
    if subs == [] then [] else Block(first, subs[0]) + LinesFrom(subs[1..], first + 1)
  }

  /** The `lines` list save_srt builds (numbering starts at 1). */
  function Lines(subs: seq<Subtitle>): seq<string> {
    LinesFrom(subs, 1)
  }

  /** The text save_srt writes for `subs`. */
  function Render(subs: seq<Subtitle>): string {
    Join(Lines(subs), "\n")
  }

  /** Builds the SubRip text with the source's loop over `enumerate(subtitles, start=1)`. */
  method SrtText(subtitles: seq<Subtitle>) returns (text: string)
    ensures text == Render(subtitles)
  {
    var lines: seq<string> := [];
    for i := 0 to |subtitles|
      invariant lines == Lines(subtitles[..i])
    {
      var idx := i + 1;
      var Subtitle(timestamp, line) := subtitles[i];
      LinesSnoc(subtitles[..i], subtitles[i], 1);
      assert subtitles[..i + 1] == subtitles[..i] + [subtitles[i]];
      lines := lines + [NatToString(idx), timestamp, line, ""];
    }
    assert subtitles[..|subtitles|] == subtitles;
    text := Join(lines, "\n");
  }

  /** Appending a subtitle appends its block, numbered after the others. */
  lemma {:induction false} LinesSnoc(subs: seq<Subtitle>, s: Subtitle, first: nat)
    ensures LinesFrom(subs + [s], first) == LinesFrom(subs, first) + Block(first + |subs|, s)
    decreases |subs|
  {
    if subs != [] {
      assert (subs + [s])[1..] == subs[1..] + [s];
      LinesSnoc(subs[1..], s, first + 1);
    }
  }

  /**
   * Exactly four lines per subtitle; the k-th block (0-based) is the
   * number `first + k`, then the timestamp and text verbatim, then "".
   */
  lemma {:induction false} LinesFromShape(subs: seq<Subtitle>, first: nat)
    ensures |LinesFrom(subs, first)| == 4 * |subs|
    ensures forall k :: 0 <= k < |subs| ==>
      LinesFrom(subs, first)[4 * k..4 * k + 4] == Block(first + k, subs[k])
    decreases |subs|
  {
    if subs != [] {
      LinesFromShape(subs[1..], first + 1);
      var rest := LinesFrom(subs[1..], first + 1);
      var all := LinesFrom(subs, first);
      assert all == Block(first, subs[0]) + rest;
      forall k | 0 <= k < |subs|
        ensures all[4 * k..4 * k + 4] == Block(first + k, subs[k])
      {
        if k > 0 {
          assert all[4 * k..4 * k + 4] == rest[4 * (k - 1)..4 * (k - 1) + 4];
        }
      }
    }
  }

  /**
   * The file save_srt writes has four lines per subtitle, in input order:
   * `str(i + 1)`, the timestamp, the text and an empty line.
   */
  lemma SrtLayout(subs: seq<Subtitle>, i: nat)
    requires i < |subs|
    ensures |Lines(subs)| == 4 * |subs|
    ensures Lines(subs)[4 * i] == NatToString(i + 1)
    ensures Lines(subs)[4 * i + 1] == subs[i].timestamp
    ensures Lines(subs)[4 * i + 2] == subs[i].text
    ensures Lines(subs)[4 * i + 3] == ""
  {
    LinesFromShape(subs, 1);
    var block := Lines(subs)[4 * i..4 * i + 4];
    assert block == Block(1 + i, subs[i]);
    assert block[0] == Lines(subs)[4 * i] && block[1] == Lines(subs)[4 * i + 1];
    assert block[2] == Lines(subs)[4 * i + 2] && block[3] == Lines(subs)[4 * i + 3];
  }

  /** An empty subtitle list writes an empty file, and only it does. */
  lemma RenderEmpty(subs: seq<Subtitle>)
    ensures Render(subs) == "" <==> subs == []
  {
    if subs != [] {
      JoinStartsWith(Lines(subs), "\n");
      assert Lines(subs)[0] == NatToString(1);
    }
  }

  /** A non-empty file ends with "\n", because its last line is empty. */
  lemma RenderEndsWithNewline(subs: seq<Subtitle>)
    requires subs != []
    ensures |Render(subs)| >= 1 && Render(subs)[|Render(subs)| - 1] == '\n'
  {
    var init := subs[..|subs| - 1];
    var last := subs[|subs| - 1];
    assert subs == init + [last];
    LinesSnoc(init, last, 1);
    var front := Lines(init) + [NatToString(|subs|), last.timestamp, last.text];
    assert Lines(subs) == front + [""];
    JoinSnoc(front, "", "\n");
  }

  /** The text for a single subtitle: "1", its timestamp, its text, each followed by "\n". */
  lemma RenderOne(s: Subtitle)
    ensures Render([s]) == "1\n" + s.timestamp + "\n" + s.text + "\n"
  {
    assert NatToString(1) == "1" by { assert DigitChar(1) == '1'; }
    assert [s][1..] == [];
    assert LinesFrom([s], 1) == Block(1, s) + LinesFrom([], 2);
    var lines := ["1", s.timestamp, s.text, ""];
    assert Lines([s]) == lines;
    var tail := [s.text, ""];
    assert [s.timestamp] + tail == lines[1..] && lines[1..][1..] == tail && tail[1..] == [""];
    assert Join(tail, "\n") == s.text + "\n";
    assert Join(lines[1..], "\n") == s.timestamp + "\n" + s.text + "\n";
  }

  /** Reads consecutive four-line blocks numbered from `first`. */
  function ParseBlocks(lines: seq<string>, first: nat): Option<seq<Subtitle>>
    decreases |lines|
  {
    if lines == [] then Some([])
    else if |lines| < 4 || lines[0] != NatToString(first) || lines[3] != "" then None
    else
      match ParseBlocks(lines[4..], first + 1)
      case None => None
      case Some(rest) => Some([Subtitle(lines[1], lines[2])] + rest)
  }

  /** Reads a SubRip text in the layout save_srt writes. */
  function Parse(text: string): Option<seq<Subtitle>> {
    if text == "" then Some([]) else ParseBlocks(Split(text, '\n'), 1)
  }

  /** No timestamp and no text holds a line break. */
  predicate SingleLine(subs: seq<Subtitle>) {
    forall i :: 0 <= i < |subs| ==> '\n' !in subs[i].timestamp && '\n' !in subs[i].text
  }

  lemma {:induction false} ParseBlocksLines(subs: seq<Subtitle>, first: nat)
    ensures ParseBlocks(LinesFrom(subs, first), first) == Some(subs)
    decreases |subs|
  {
    if subs != [] {
      ParseBlocksLines(subs[1..], first + 1);
      var lines := LinesFrom(subs, first);
      assert lines[4..] == LinesFrom(subs[1..], first + 1);
      assert [subs[0]] + subs[1..] == subs;
    }
  }

  lemma {:induction false} LinesFromSingleLine(subs: seq<Subtitle>, first: nat)
    requires SingleLine(subs)
    ensures NoChar(LinesFrom(subs, first), '\n')
    decreases |subs|
  {
    if subs != [] {
      LinesFromSingleLine(subs[1..], first + 1);
      var b := Block(first, subs[0]);
      assert '\n' !in b[0] by {
        var d := NatToString(first);
        assert forall j :: 0 <= j < |d| ==> d[j] != '\n';
      }
    }
  }

  /** Writing then reading gives the subtitle list back, when no field holds a line break. */
  lemma ParseRender(subs: seq<Subtitle>)
    requires SingleLine(subs)
    ensures Parse(Render(subs)) == Some(subs)
  {
    RenderEmpty(subs);
    if subs != [] {
      LinesFromSingleLine(subs, 1);
      SplitJoin(Lines(subs), '\n');
      ParseBlocksLines(subs, 1);
    }
  }

  lemma {:induction false} ParseBlocksInverse(lines: seq<string>, first: nat, subs: seq<Subtitle>)
    requires ParseBlocks(lines, first) == Some(subs)
    ensures LinesFrom(subs, first) == lines
    decreases |lines|
  {
    if lines != [] {
      var rest :| ParseBlocks(lines[4..], first + 1) == Some(rest);
      ParseBlocksInverse(lines[4..], first + 1, rest);
      assert subs == [Subtitle(lines[1], lines[2])] + rest;
      assert subs[1..] == rest;
      assert lines == lines[..4] + lines[4..];
    }
  }

  /** Every text that reads as a subtitle list is exactly what save_srt writes for that list. */
  lemma RenderParse(text: string, subs: seq<Subtitle>)
    requires Parse(text) == Some(subs)
    ensures Render(subs) == text
  {
    if text != "" {
      ParseBlocksInverse(Split(text, '\n'), 1, subs);
      JoinSplit(text, '\n');
    }
  }
}
