/** What the incremental reader of frontend/src/api.ts makes of a frame's lines, in the terms of section
    9.2 of the WHATWG HTML Living Standard: comments, frames without data, and payloads of several lines. */
module SseFrames {
  import opened Wrappers
  import opened Text
  import opened Sse

  ghost predicate Blank(s: string) {
    forall c :: c in s ==> IsSpace(c)
  }

  /** Trimming takes the spaces off both ends and nothing else. */
  lemma TrimTakesSpaces(s: string) returns (front: string, back: string)
    ensures s == front + Trim(s) + back && Blank(front) && Blank(back)
    ensures Trim(s) != "" ==> !IsSpace(Trim(s)[0]) && !IsSpace(Trim(s)[|Trim(s)| - 1])
  {
    front := TrimStartTakes(s);
    back := TrimEndTakes(TrimStart(s));
    assert s == front + (TrimEnd(TrimStart(s)) + back);
    if Trim(s) != "" {
      assert TrimStart(s)[0] == Trim(s)[0];
    }
  }

  lemma {:induction false} TrimStartTakes(s: string) returns (front: string)
    ensures s == front + TrimStart(s) && Blank(front)
    ensures TrimStart(s) != "" ==> !IsSpace(TrimStart(s)[0])
  {
    front := "";
    if s != [] && IsSpace(s[0]) {
      front := TrimStartTakes(s[1..]);
      front := [s[0]] + front;
    }
  }

  lemma {:induction false} TrimEndTakes(s: string) returns (back: string)
    ensures s == TrimEnd(s) + back && Blank(back)
    ensures TrimEnd(s) != "" ==> !IsSpace(TrimEnd(s)[|TrimEnd(s)| - 1])
  {
    back := "";
    if s != [] && IsSpace(s[|s| - 1]) {
      back := TrimEndTakes(s[..|s| - 1]);
      back := back + [s[|s| - 1]];
    }
  }

  lemma {:induction false} NoDataLines(lines: seq<string>)
    requires forall line :: line in lines ==> !StartsWith(line, "data:")
    ensures DataLines(lines) == []
  {
    if lines != [] {
      NoDataLines(lines[..|lines| - 1]);
    }
  }

  /** A comment, and a frame without a data line, is no event. */
  lemma SilentFrames(frame: string)
    requires StartsWith(frame, ":") || forall line :: line in Split(frame, '\n') ==> !StartsWith(line, "data:")
    ensures EventOf(frame) == None
  {
    if !StartsWith(frame, ":") {
      NoDataLines(Split(frame, '\n'));
    }
  }

  /** The lines of a frame: its id, and a data line for each piece. */
  ghost function FrameLines(id: string, pieces: seq<string>): (lines: seq<string>)
    ensures lines != [] && lines[0] == "id: " + id
  {
    if pieces == [] then ["id: " + id]
    else FrameLines(id, pieces[..|pieces| - 1]) + ["data: " + pieces[|pieces| - 1]]
  }

  ghost predicate AllTrimmed(pieces: seq<string>) {
    forall piece :: piece in pieces ==> Clean(piece)
  }

  lemma DataLineReads(piece: string)
    requires Clean(piece)
    ensures !StartsWith("data: " + piece, "id:") && StartsWith("data: " + piece, "data:")
    ensures Trim(("data: " + piece)[5..]) == piece && '\n' !in "data: " + piece
  {
    var line := "data: " + piece;
    assert line[..5] == "data:" && line[5..] == " " + piece && line[0] == 'd';
    TrimSkipsSpace(piece);
  }

  lemma IdLineReads(id: string)
    requires Clean(id)
    ensures StartsWith("id: " + id, "id:") && !StartsWith("id: " + id, "data:") && Trim(("id: " + id)[3..]) == id
    ensures LastId(["id: " + id]) == Some(id) && DataLines(["id: " + id]) == [] && '\n' !in "id: " + id
  {
    var line := "id: " + id;
    assert line[..3] == "id:" && line[3..] == " " + id && line[0] == 'i';
    TrimSkipsSpace(id);
    LineAdded([], line);
    assert [] + [line] == [line];
  }

  lemma DataLineAdded(lines: seq<string>, piece: string)
    requires Clean(piece)
    ensures LastId(lines + ["data: " + piece]) == LastId(lines)
    ensures DataLines(lines + ["data: " + piece]) == DataLines(lines) + [piece]
    ensures '\n' !in "data: " + piece
  {
    DataLineReads(piece);
    LineAdded(lines, "data: " + piece);
  }

  lemma {:induction false} FrameLinesRead(id: string, pieces: seq<string>)
    requires AllTrimmed(pieces) && Clean(id)
    ensures LastId(FrameLines(id, pieces)) == Some(id) && DataLines(FrameLines(id, pieces)) == pieces
    ensures forall line :: line in FrameLines(id, pieces) ==> '\n' !in line
  {
    if pieces == [] {
      IdLineReads(id);
    } else {
      FrameLinesRead(id, pieces[..|pieces| - 1]);
      DataLineAdded(FrameLines(id, pieces[..|pieces| - 1]), pieces[|pieces| - 1]);
    }
  }

  /** A payload of several lines, each sent as a data line of its own, arrives as it was, provided no
      line begins or ends with a space. */
  lemma LinesArriveTogether(id: string, payload: string)
    requires Clean(id) && AllTrimmed(Split(payload, '\n'))
    ensures EventOf(Join(FrameLines(id, Split(payload, '\n')), '\n')) == Some(Event(Some(id), payload))
  {
    var pieces := Split(payload, '\n');
    FrameLinesRead(id, pieces);
    SplitThenJoin(payload, '\n');
    JoinThenSplit(FrameLines(id, pieces), '\n');
    JoinBeginsWith(FrameLines(id, pieces));
  }

  lemma JoinBeginsWith(lines: seq<string>)
    requires lines != [] && lines[0] != "" && lines[0][0] != ':'
    ensures !StartsWith(Join(lines, '\n'), ":")
  {
    assert Join(lines, '\n')[0] == lines[0][0];
  }
}
