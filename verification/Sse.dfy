/** Reading and relaying a provider's server-sent events (section 9.2.6 of the WHATWG HTML Living Standard). */
module Sse {

  const DONE := "[DONE]"

  datatype Event = Event(data: string, done: bool)

  // ----- Text ---------------------------------------------------------------------

  /** Unicode white space. */
  predicate IsSpace(c: char) {
    var code := c as int;
    || 9 <= code <= 13 || code == 32 || code == 0x85 || code == 0xA0 || code == 0x1680 || 0x2000 <= code <= 0x200A
    || code == 0x2028 || code == 0x2029 || code == 0x202F || code == 0x205F || code == 0x3000
  }

  function TrimLeftSpace(s: string): (r: string)
    ensures |r| <= |s|
  {
    if s != "" && IsSpace(s[0]) then TrimLeftSpace(s[1..]) else s
  }

  function TrimRightSpace(s: string): (r: string)
    ensures |r| <= |s|
  {
    if s != "" && IsSpace(s[|s| - 1]) then TrimRightSpace(s[..|s| - 1]) else s
  }

  function TrimSpace(s: string): (r: string)
    ensures |r| <= |s|
  {
    TrimRightSpace(TrimLeftSpace(s))
  }

  /** Without the carriage returns and line feeds at the end. */
  function TrimBreaks(s: string): (r: string)
    ensures |r| <= |s|
  {
    if s != "" && s[|s| - 1] in "\r\n" then TrimBreaks(s[..|s| - 1]) else s
  }

  ghost predicate AllSpace(s: string) {
    forall i :: 0 <= i < |s| ==> IsSpace(s[i])
  }

  /** Only white space is trimmed, and none is left at either end. */
  lemma TrimSpaceMeans(s: string) returns (left: string, right: string)
    ensures s == left + TrimSpace(s) + right && AllSpace(left) && AllSpace(right)
    ensures var r := TrimSpace(s); r == "" || (!IsSpace(r[0]) && !IsSpace(r[|r| - 1]))
  {
    left := TrimLeftMeans(s);
    right := TrimRightMeans(TrimLeftSpace(s));
    assert left + (TrimSpace(s) + right) == left + TrimSpace(s) + right;
  }

  lemma {:induction false} TrimLeftMeans(s: string) returns (left: string)
    ensures s == left + TrimLeftSpace(s) && AllSpace(left)
    ensures TrimLeftSpace(s) == "" || !IsSpace(TrimLeftSpace(s)[0])
  {
    left := "";
    if s != "" && IsSpace(s[0]) {
      left := TrimLeftMeans(s[1..]);
      left := [s[0]] + left;
    }
  }

  lemma {:induction false} TrimRightMeans(s: string) returns (right: string)
    ensures s == TrimRightSpace(s) + right && AllSpace(right)
    ensures TrimRightSpace(s) <= s
    ensures TrimRightSpace(s) == "" || !IsSpace(TrimRightSpace(s)[|TrimRightSpace(s)| - 1])
  {
    right := "";
    if s != "" && IsSpace(s[|s| - 1]) {
      right := TrimRightMeans(s[..|s| - 1]);
      right := right + [s[|s| - 1]];
    }
  }

  /** Only carriage returns and line feeds are cut off the end of a line, and all of them. */
  lemma {:induction false} TrimBreaksMeans(s: string)
    ensures var r := TrimBreaks(s);
            && r <= s && (forall i :: |r| <= i < |s| ==> s[i] == '\r' || s[i] == '\n')
            && (r == "" || (r[|r| - 1] != '\r' && r[|r| - 1] != '\n'))
  {
    if s != "" && s[|s| - 1] in "\r\n" { TrimBreaksMeans(s[..|s| - 1]); }
  }

  /** The data lines of an event are joined by single line feeds. */
  lemma {:induction false} JoinMeans(lines: seq<string>, more: seq<string>)
    requires lines != [] && more != []
    ensures Join(lines + more) == Join(lines) + "\n" + Join(more)
    ensures Join([lines[0]]) == lines[0]
  {
    var n := |more| - 1;
    assert (lines + more)[..|lines + more| - 1] == lines + more[..n];
    if n > 0 {
      JoinMeans(lines, more[..n]);
    } else {
      assert more[..n] == [] && lines + [] == lines;
    }
  }

  function Join(lines: seq<string>): string {
    if lines == [] then ""
    else if |lines| == 1 then lines[0]
    else Join(lines[..|lines| - 1]) + "\n" + lines[|lines| - 1]
  }

  /** The length of the first line, without its line feed. */
  function LineLength(body: string): (k: nat)
    ensures k <= |body| && '\n' !in body[..k]
    ensures k < |body| ==> body[k] == '\n'
  {
    if body == "" || body[0] == '\n' then 0
    else
      var k := LineLength(body[1..]);
      assert body[..k + 1] == [body[0]] + body[1..][..k];
      k + 1
  }

  function AppendDataLine(lines: seq<string>, line: string): seq<string> {
    if "data:" <= line then lines + [TrimSpace(line[5..])] else lines
  }

  // ----- Reading ------------------------------------------------------------------

  /** The data of the events read from `body` when the lines `pending` wait for their blank line. */
  function Read(body: string, pending: seq<string>): seq<string>
    decreases |body|
  {
    var k := LineLength(body);
    if k == |body| then Flush(AppendDataLine(pending, body))
    else
      var line, rest := TrimBreaks(body[..k + 1]), body[k + 1..];
      if line != "" then Read(rest, AppendDataLine(pending, line))
      else if pending == [] then Read(rest, [])
      else if Join(pending) == DONE then [DONE]
      else [Join(pending)] + Read(rest, [])
  }

  function Flush(pending: seq<string>): seq<string> {
    if pending == [] then [] else [Join(pending)]
  }

  /** Reading stops at an event that says so, before the body ends. */
  predicate StopsEarly(body: string, pending: seq<string>)
    decreases |body|
  {
    var k := LineLength(body);
    k < |body| &&
    var line, rest := TrimBreaks(body[..k + 1]), body[k + 1..];
    if line != "" then StopsEarly(rest, AppendDataLine(pending, line))
    else (pending != [] && Join(pending) == DONE) || StopsEarly(rest, [])
  }

  function Events(data: seq<string>): seq<Event> {
    seq(|data|, i requires 0 <= i < |data| => Event(data[i], data[i] == DONE))
  }

  /** A body ends, or the connection breaks. */
  datatype Ending = EndOfFile | Broken

  method EmitData(events: seq<Event>, data: string) returns (sent: seq<Event>, done: bool)
    ensures sent == events + [Event(data, data == DONE)] && done == (data == DONE)
  {
    var event := Event(data, data == "[DONE]");
    sent := events + [event];
    done := event.done;
  }

  method ReadStream(body: string, ending: Ending, cancelled: bool) returns (events: seq<Event>, failed: bool)
    ensures events == Events(Read(body, []))
    ensures failed <==> ending.Broken? && !cancelled && !StopsEarly(body, [])
  {
    events := [];
    failed := false;
    var unread := body;
    var dataLines: seq<string> := [];
    while true
      invariant Events(Read(body, [])) == events + Events(Read(unread, dataLines))
      invariant StopsEarly(body, []) <==> StopsEarly(unread, dataLines)
      invariant !failed
      decreases |unread|
    {
      var length := LineLength(unread);
      if length == |unread| {
        if |unread| > 0 {
          dataLines := AppendDataLine(dataLines, unread);
        }
        if |dataLines| > 0 {
          var done;
          events, done := EmitData(events, Join(dataLines));
        }
        failed := ending.Broken? && !cancelled;
        return;
      }
      var trimmed := TrimBreaks(unread[..length + 1]);
      ghost var at := unread;
      unread := unread[length + 1..];
      if trimmed == "" {
        if |dataLines| > 0 {
          var done;
          EventsSplit(Join(dataLines), Read(unread, []));
          events, done := EmitData(events, Join(dataLines));
          if done {
            return;
          }
        }
        dataLines := [];
        continue;
      }
      dataLines := AppendDataLine(dataLines, trimmed);
    }
  }

  lemma EventsSplit(first: string, rest: seq<string>)
    ensures Events([first] + rest) == [Event(first, first == DONE)] + Events(rest)
    ensures Events([first]) == [Event(first, first == DONE)]
  {
  }

  // ----- What a body says -----------------------------------------------------------

  /** Lines up to and including a blank one. */
  datatype Block = Block(lines: seq<string>, blank: string)

  /** A body as blocks, the complete lines of an unfinished block, and an unfinished line. */
  datatype Frame = Frame(blocks: seq<Block>, tail: seq<string>, partial: string)

  predicate IsBlank(line: string) {
    '\n' !in line && TrimBreaks(line) == ""
  }

  ghost predicate AreLines(lines: seq<string>) {
    forall i :: 0 <= i < |lines| ==> '\n' !in lines[i] && TrimBreaks(lines[i]) != ""
  }

  ghost predicate WellFramed(f: Frame) {
    && AreBlocks(f.blocks) && AreLines(f.tail) && '\n' !in f.partial
  }

  function LinesText(lines: seq<string>): string {
    if lines == [] then "" else lines[0] + "\n" + LinesText(lines[1..])
  }

  function BlockText(block: Block): string {
    LinesText(block.lines) + block.blank + "\n"
  }

  function BlocksText(blocks: seq<Block>): string {
    if blocks == [] then "" else BlockText(blocks[0]) + BlocksText(blocks[1..])
  }

  function Text(f: Frame): string {
    BlocksText(f.blocks) + LinesText(f.tail) + f.partial
  }

  /** The payloads of the data lines among `lines`, in order. */
  function DataOf(lines: seq<string>): seq<string> {
    if lines == [] then [] else AppendDataLine([], lines[0]) + DataOf(lines[1..])
  }

  /** One event for each block that has a data line. */
  function BlockData(blocks: seq<Block>): seq<string> {
    if blocks == [] then [] else Flush(DataOf(blocks[0].lines)) + BlockData(blocks[1..])
  }

  /** The unfinished block at the end counts, too. */
  function Announced(f: Frame): seq<string> {
    BlockData(f.blocks) + Flush(DataOf(f.tail + [f.partial]))
  }

  function UpToDone(data: seq<string>): seq<string> {
    if data == [] then []
    else if data[0] == DONE then [DONE]
    else [data[0]] + UpToDone(data[1..])
  }

  /** For any body: exactly the events it announces are read, up to the one that ends the stream. */
  lemma ReadMeans(f: Frame)
    requires WellFramed(f)
    ensures Read(Text(f), []) == UpToDone(Announced(f))
    ensures StopsEarly(Text(f), []) <==> DONE in BlockData(f.blocks)
  {
    ReadBlocks(f.blocks, LinesText(f.tail) + f.partial);
    Regroup(BlocksText(f.blocks), LinesText(f.tail), f.partial);
    ReadTail(f.tail, f.partial);
    UpToDoneSplit(BlockData(f.blocks), Flush(DataOf(f.tail + [f.partial])));
  }

  lemma Regroup(a: string, b: string, c: string)
    ensures a + b + c == a + (b + c)
  {
  }

  lemma {:induction false} LineEndsAt(body: string, k: nat)
    requires k < |body| && body[k] == '\n' && '\n' !in body[..k]
    ensures LineLength(body) == k
  {
    if k > 0 {
      assert body[0] == body[..k][0];
      assert body[1..][..k - 1] == body[..k][1..];
      LineEndsAt(body[1..], k - 1);
    }
  }

  lemma FirstLine(line: string, rest: string)
    requires '\n' !in line
    ensures LineLength(line + "\n" + rest) == |line|
    ensures (line + "\n" + rest)[..|line| + 1] == line + "\n" && (line + "\n" + rest)[|line| + 1..] == rest
  {
    var body := line + "\n" + rest;
    assert body[..|line|] == line;
    LineEndsAt(body, |line|);
  }

  lemma OnlyLine(line: string)
    requires '\n' !in line
    ensures LineLength(line) == |line|
  {
    if LineLength(line) < |line| { assert line[LineLength(line)] == '\n'; }
  }

  lemma TrimsNewline(line: string)
    ensures TrimBreaks(line + "\n") == TrimBreaks(line)
  {
    assert (line + "\n")[..|line|] == line;
  }

  // White space at the end of a line is gone in the end, whoever trims it.

  lemma {:induction false} TrimLeftAppend(s: string, c: char)
    requires IsSpace(c)
    ensures TrimLeftSpace(s + [c]) == if TrimLeftSpace(s) == "" then "" else TrimLeftSpace(s) + [c]
  {
    if s == "" {
      assert [c][1..] == "";
    } else if IsSpace(s[0]) {
      assert (s + [c])[1..] == s[1..] + [c];
      TrimLeftAppend(s[1..], c);
    }
  }

  lemma TrimSpaceAppend(s: string, c: char)
    requires IsSpace(c)
    ensures TrimSpace(s + [c]) == TrimSpace(s)
  {
    TrimLeftAppend(s, c);
    var t := TrimLeftSpace(s);
    assert (t + [c])[..|t|] == t;
  }

  lemma {:induction false} SameDataLine(lines: seq<string>, line: string)
    ensures AppendDataLine(lines, TrimBreaks(line)) == AppendDataLine(lines, line)
  {
    if line != "" && line[|line| - 1] in "\r\n" {
      var n := |line| - 1;
      SameDataLine(lines, line[..n]);
      assert line == line[..n] + [line[n]];
      KeepsPrefix(line);
      if "data:" <= line {
        assert line[5..] == line[..n][5..] + [line[n]];
        TrimSpaceAppend(line[..n][5..], line[n]);
      }
    }
  }

  lemma KeepsPrefix(line: string)
    requires line != "" && line[|line| - 1] in "\r\n"
    ensures "data:" <= line <==> "data:" <= line[..|line| - 1]
  {
    if "data:" <= line { assert line[4] == "data:"[4] == ':'; }
  }

  lemma AppendDataLineSplit(lines: seq<string>, line: string)
    ensures AppendDataLine(lines, line) == lines + AppendDataLine([], line)
  {
  }

  lemma ReadLine(line: string, pending: seq<string>, rest: string)
    requires '\n' !in line && TrimBreaks(line) != ""
    ensures Read(line + "\n" + rest, pending) == Read(rest, pending + AppendDataLine([], line))
    ensures StopsEarly(line + "\n" + rest, pending) == StopsEarly(rest, pending + AppendDataLine([], line))
  {
    FirstLine(line, rest);
    TrimsNewline(line);
    SameDataLine(pending, line);
    AppendDataLineSplit(pending, line);
  }

  lemma LinesTextStep(lines: seq<string>, rest: string)
    requires lines != []
    ensures LinesText(lines) + rest == lines[0] + "\n" + (LinesText(lines[1..]) + rest)
  {
  }

  lemma DataOfStep(lines: seq<string>, pending: seq<string>)
    requires lines != []
    ensures pending + DataOf(lines) == (pending + AppendDataLine([], lines[0])) + DataOf(lines[1..])
  {
  }

  lemma {:induction false} ReadLines(lines: seq<string>, pending: seq<string>, rest: string)
    requires AreLines(lines)
    ensures Read(LinesText(lines) + rest, pending) == Read(rest, pending + DataOf(lines))
    ensures StopsEarly(LinesText(lines) + rest, pending) == StopsEarly(rest, pending + DataOf(lines))
  {
    if lines == [] {
      assert LinesText(lines) + rest == rest;
      assert pending + DataOf(lines) == pending;
    } else {
      LinesTextStep(lines, rest);
      DataOfStep(lines, pending);
      ReadLine(lines[0], pending, LinesText(lines[1..]) + rest);
      ReadLines(lines[1..], pending + AppendDataLine([], lines[0]), rest);
    }
  }

  lemma ReadBlank(blank: string, pending: seq<string>, rest: string)
    requires IsBlank(blank)
    ensures Read(blank + "\n" + rest, pending) == EmitThen(pending, Read(rest, []))
    ensures StopsEarly(blank + "\n" + rest, pending) <==> (pending != [] && Join(pending) == DONE) || StopsEarly(rest, [])
  {
    FirstLine(blank, rest);
    TrimsNewline(blank);
  }

  /** The event of a block, and what follows unless it ends the stream. */
  function EmitThen(pending: seq<string>, more: seq<string>): seq<string> {
    if pending == [] then more else if Join(pending) == DONE then [DONE] else [Join(pending)] + more
  }

  function Cut(data: seq<string>, more: seq<string>): seq<string> {
    if DONE in data then UpToDone(data) else data + more
  }

  lemma ReadBlock(block: Block, rest: string)
    requires AreLines(block.lines) && IsBlank(block.blank)
    ensures Read(BlockText(block) + rest, []) == EmitThen(DataOf(block.lines), Read(rest, []))
    ensures StopsEarly(BlockText(block) + rest, []) <==>
              (DataOf(block.lines) != [] && Join(DataOf(block.lines)) == DONE) || StopsEarly(rest, [])
  {
    assert BlockText(block) + rest == LinesText(block.lines) + (block.blank + "\n" + rest);
    ReadLines(block.lines, [], block.blank + "\n" + rest);
    assert [] + DataOf(block.lines) == DataOf(block.lines);
    ReadBlank(block.blank, DataOf(block.lines), rest);
  }

  ghost predicate AreBlocks(blocks: seq<Block>) {
    forall i :: 0 <= i < |blocks| ==> AreLines(blocks[i].lines) && IsBlank(blocks[i].blank)
  }

  lemma {:induction false} ReadBlocks(blocks: seq<Block>, rest: string)
    requires AreBlocks(blocks)
    ensures Read(BlocksText(blocks) + rest, []) == Cut(BlockData(blocks), Read(rest, []))
    ensures StopsEarly(BlocksText(blocks) + rest, []) <==> DONE in BlockData(blocks) || StopsEarly(rest, [])
  {
    if blocks == [] {
      assert BlocksText(blocks) + rest == rest;
      assert BlockData(blocks) + Read(rest, []) == Read(rest, []);
    } else {
      var more := BlocksText(blocks[1..]) + rest;
      ReadBlocks(blocks[1..], rest);
      BlocksTextStep(blocks, rest);
      ReadBlock(blocks[0], more);
      CutStep(DataOf(blocks[0].lines), BlockData(blocks[1..]), Read(rest, []));
    }
  }

  lemma BlocksTextStep(blocks: seq<Block>, rest: string)
    requires blocks != []
    ensures BlocksText(blocks) + rest == BlockText(blocks[0]) + (BlocksText(blocks[1..]) + rest)
  {
  }

  /** The events of one more block in front. */
  lemma CutStep(pending: seq<string>, data: seq<string>, last: seq<string>)
    ensures DONE in Flush(pending) + data <==> (pending != [] && Join(pending) == DONE) || DONE in data
    ensures EmitThen(pending, Cut(data, last)) == Cut(Flush(pending) + data, last)
  {
    if pending == [] {
      assert Flush(pending) + data == data;
    } else {
      CutOne(Join(pending), data, last);
    }
  }

  lemma CutOne(first: string, data: seq<string>, last: seq<string>)
    ensures DONE in [first] + data <==> first == DONE || DONE in data
    ensures Cut([first] + data, last) == if first == DONE then [DONE] else [first] + Cut(data, last)
  {
    assert ([first] + data)[1..] == data;
    assert [first] + data + last == [first] + (data + last);
  }

  lemma ReadTail(tail: seq<string>, partial: string)
    requires AreLines(tail) && '\n' !in partial
    ensures Read(LinesText(tail) + partial, []) == Flush(DataOf(tail + [partial]))
    ensures !StopsEarly(LinesText(tail) + partial, [])
  {
    ReadLines(tail, [], partial);
    assert [] + DataOf(tail) == DataOf(tail);
    OnlyLine(partial);
    AppendDataLineSplit(DataOf(tail), partial);
    DataOfAppend(tail, partial);
  }

  lemma {:induction false} DataOfAppend(lines: seq<string>, line: string)
    ensures DataOf(lines + [line]) == DataOf(lines) + AppendDataLine([], line)
  {
    if lines == [] {
      assert [line][1..] == [];
    } else {
      assert (lines + [line])[1..] == lines[1..] + [line];
      DataOfAppend(lines[1..], line);
    }
  }

  lemma {:induction false} UpToDoneSplit(data: seq<string>, last: seq<string>)
    requires |last| <= 1
    ensures UpToDone(data + last) == Cut(data, last)
  {
    if data == [] {
      assert data + last == last;
      if last != [] { assert last == [last[0]]; }
    } else {
      assert (data + last)[1..] == data[1..] + last;
      UpToDoneSplit(data[1..], last);
    }
  }

  // ----- Every body has a frame -----------------------------------------------------

  function FrameOf(body: string): Frame
    decreases |body|
  {
    var k := LineLength(body);
    if k == |body| then Frame([], [], body)
    else
      WithLine(body[..k], FrameOf(body[k + 1..]))
  }

  function WithLine(line: string, f: Frame): Frame {
    if TrimBreaks(line) == "" then f.(blocks := [Block([], line)] + f.blocks)
    else if f.blocks == [] then f.(tail := [line] + f.tail)
    else f.(blocks := [Block([line] + f.blocks[0].lines, f.blocks[0].blank)] + f.blocks[1..])
  }

  lemma {:induction false} FrameOfText(body: string)
    ensures WellFramed(FrameOf(body)) && Text(FrameOf(body)) == body
    decreases |body|
  {
    var k := LineLength(body);
    if k < |body| {
      FrameOfText(body[k + 1..]);
      StaysWellFramed(body[..k], FrameOf(body[k + 1..]));
      GrowsText(body[..k], FrameOf(body[k + 1..]));
      LineAndRest(body, k);
    } else {
      assert body[..k] == body;
    }
  }

  lemma LineAndRest(body: string, k: nat)
    requires k < |body| && body[k] == '\n'
    ensures body == body[..k] + "\n" + body[k + 1..]
  {
  }

  lemma StaysWellFramed(line: string, f: Frame)
    requires WellFramed(f) && '\n' !in line
    ensures WellFramed(WithLine(line, f))
  {
    var g := WithLine(line, f);
    forall i | 0 <= i < |g.blocks| ensures AreLines(g.blocks[i].lines) && IsBlank(g.blocks[i].blank) {
      if TrimBreaks(line) == "" {
        assert i > 0 ==> g.blocks[i] == f.blocks[i - 1];
      } else {
        assert i > 0 ==> g.blocks[i] == f.blocks[i];
      }
    }
  }

  lemma GrowsText(line: string, f: Frame)
    ensures Text(WithLine(line, f)) == line + "\n" + Text(f)
  {
    var g := WithLine(line, f);
    if TrimBreaks(line) != "" && f.blocks == [] {
      GrowsLines(line, f.tail);
      Shift("", line, LinesText(f.tail), f.partial);
    } else {
      GrowsBlocks(line, f.blocks, g.blocks);
      Shift(line, BlocksText(f.blocks), LinesText(f.tail), f.partial);
    }
  }

  lemma Shift(line: string, blocks: string, tail: string, partial: string)
    ensures line + "\n" + blocks + tail + partial == line + "\n" + (blocks + tail + partial)
    ensures "" + (blocks + "\n" + tail) + partial == blocks + "\n" + ("" + tail + partial)
  {
  }

  lemma GrowsLines(line: string, lines: seq<string>)
    ensures LinesText([line] + lines) == line + "\n" + LinesText(lines)
  {
    assert ([line] + lines)[1..] == lines;
  }

  lemma GrowsBlocks(line: string, blocks: seq<Block>, grown: seq<Block>)
    requires grown == [Block([], line)] + blocks
             || (blocks != [] && grown == [Block([line] + blocks[0].lines, blocks[0].blank)] + blocks[1..])
    ensures BlocksText(grown) == line + "\n" + BlocksText(blocks)
  {
    if grown == [Block([], line)] + blocks {
      assert grown[1..] == blocks;
    } else {
      GrowsBlock(line, blocks[0]);
      assert grown[1..] == blocks[1..];
      Regroup(line + "\n", BlockText(blocks[0]), BlocksText(blocks[1..]));
    }
  }

  lemma GrowsBlock(line: string, block: Block)
    ensures BlockText(Block([line] + block.lines, block.blank)) == line + "\n" + BlockText(block)
  {
    assert ([line] + block.lines)[1..] == block.lines;
  }
}
