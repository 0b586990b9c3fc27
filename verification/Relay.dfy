/** Printing events for the client, and what a client that reads them the same way gets back. */
module Relay {
  import opened Sse

  function PrintOne(data: string): string {
    "data: " + data + "\n\n"
  }

  function Print(data: seq<string>): string {
    if data == [] then "" else PrintOne(data[0]) + Print(data[1..])
  }

  /** An event is printed as a field and a blank line, one event after the other. */
  lemma {:induction false} PrintMeans(data: seq<string>, more: seq<string>, one: string)
    ensures Print([one]) == "data: " + one + "\n\n"
    ensures Print(data + more) == Print(data) + Print(more)
  {
    if data == [] {
      assert data + more == more;
    } else {
      assert (data + more)[1..] == data[1..] + more;
      PrintMeans(data[1..], more, one);
    }
  }

  /** The handler's loop: print each event until the client is gone. */
  method WriteEvents(events: seq<Event>, gone: nat) returns (written: string)
    ensures var n := if gone < |events| then gone else |events|;
            written == Print(seq(n, i requires 0 <= i < n => events[i].data))
  {
    written := "";
    ghost var n := if gone < |events| then gone else |events|;
    ghost var data := seq(n, i requires 0 <= i < n => events[i].data);
    for i := 0 to |events|
      invariant i <= n
      invariant Print(data) == written + Print(data[i..])
    {
      if i == gone {
        break;
      }
      PrintRest(written, data, i);
      written := written + ("data: " + events[i].data + "\n\n");
    }
  }

  lemma PrintRest(written: string, data: seq<string>, i: nat)
    requires i < |data|
    ensures written + Print(data[i..]) == written + PrintOne(data[i]) + Print(data[i + 1..])
  {
    assert data[i..][1..] == data[i + 1..];
  }

  // ----- Payloads that survive ------------------------------------------------------

  /** One line, without white space around it. */
  predicate Plain(data: string) {
    '\n' !in data && TrimSpace(data) == data
  }

  ghost predicate AllPlain(data: seq<string>) {
    forall i :: 0 <= i < |data| ==> Plain(data[i])
  }

  lemma KeepsFirst(line: string, c: char)
    requires c !in "\r\n" && line != "" && line[0] == c
    ensures TrimBreaks(line) != ""
  {
    if line[|line| - 1] in "\r\n" { KeepsFirst(line[..|line| - 1], c); }
  }

  lemma DataLine(data: string)
    requires '\n' !in data
    ensures '\n' !in "data: " + data && TrimBreaks("data: " + data) != ""
    ensures AppendDataLine([], "data: " + data) == [TrimSpace(data)]
  {
    var line := "data: " + data;
    assert line[0] == 'd';
    KeepsFirst(line, 'd');
    assert "data:" <= line && line[5..] == " " + data;
    assert (" " + data)[1..] == data;
  }

  /** One printed event, read back. */
  lemma ReadPrinted(data: string, rest: string)
    requires '\n' !in data
    ensures Read(PrintOne(data) + rest, []) == EmitThen([TrimSpace(data)], Read(rest, []))
  {
    var line := "data: " + data;
    DataLine(data);
    var body := "" + "\n" + rest;
    assert PrintOne(data) + rest == line + "\n" + body;
    ReadLine(line, [], body);
    assert [] + AppendDataLine([], line) == [TrimSpace(data)];
    ReadBlank("", [TrimSpace(data)], rest);
  }

  // ----- Payloads that do not -------------------------------------------------------

  lemma JoinGrows(pending: seq<string>, line: string)
    requires pending != []
    ensures |Join(AppendDataLine(pending, line))| <= |Join(pending)| + |line|
  {
    if "data:" <= line {
      assert AppendDataLine(pending, line)[..|pending|] == pending;
    }
  }

  /** Once a data line is pending, the next event is no longer than what was pending and the text up to the blank line. */
  lemma {:induction false} NextEventShort(text: string, rest: string, pending: seq<string>)
    requires pending != []
    ensures var read := Read(text + "\n\n" + rest, pending); read != [] && |read[0]| <= |Join(pending)| + |text|
    decreases |text|
  {
    var body := text + "\n\n" + rest;
    var k := LineLength(text);
    var line := text[..k];
    if k < |text| {
      assert body == line + "\n" + (text[k + 1..] + "\n\n" + rest);
      if TrimBreaks(line) == "" {
        ReadBlank(line, pending, text[k + 1..] + "\n\n" + rest);
      } else {
        ReadMore(line, pending, text[k + 1..] + "\n\n" + rest);
        NextEventShort(text[k + 1..], rest, pending + AppendDataLine([], line));
      }
    } else {
      assert line == text;
      assert body == line + "\n" + ("" + "\n" + rest);
      if TrimBreaks(line) == "" {
        ReadBlank(line, pending, "" + "\n" + rest);
      } else {
        ReadMore(line, pending, "" + "\n" + rest);
        ReadBlank("", pending + AppendDataLine([], line), rest);
      }
    }
  }

  lemma ReadMore(line: string, pending: seq<string>, rest: string)
    requires pending != [] && '\n' !in line && TrimBreaks(line) != ""
    ensures Read(line + "\n" + rest, pending) == Read(rest, pending + AppendDataLine([], line))
    ensures |Join(pending + AppendDataLine([], line))| <= |Join(pending)| + |line|
  {
    ReadLine(line, pending, rest);
    AppendDataLineSplit(pending, line);
    JoinGrows(pending, line);
  }

  /** A payload with a line feed comes back shorter. */
  lemma BrokenLine(data: string, rest: string)
    requires '\n' in data
    ensures var read := Read(PrintOne(data) + rest, []); read != [] && |read[0]| < |data|
  {
    var k := LineLength(data);
    assert data[..|data|] == data;
    var first, more := data[..k], data[k + 1..];
    assert PrintOne(data) + rest == ("data: " + first) + "\n" + (more + "\n\n" + rest);
    DataLine(first);
    ReadLine("data: " + first, [], more + "\n\n" + rest);
    assert [] + AppendDataLine([], "data: " + first) == [TrimSpace(first)];
    NextEventShort(more, rest, [TrimSpace(first)]);
  }

  /**
   * What is printed reads back as the same events, up to the one that ends the stream, exactly when every payload
   * is one trimmed line. An event that arrived as several data lines is therefore not relayed faithfully.
   */
  lemma {:induction false} RelayedExactly(data: seq<string>)
    ensures Read(Print(data), []) == UpToDone(data) <==> AllPlain(UpToDone(data))
  {
    if data == [] {
      assert LineLength("") == 0;
    } else {
      var rest := Print(data[1..]);
      RelayedExactly(data[1..]);
      if '\n' in data[0] {
        BrokenLine(data[0], rest);
      } else {
        ReadPrinted(data[0], rest);
      }
      var out := UpToDone(data);
      assert out[0] == data[0];
      if data[0] != DONE {
        assert out[1..] == UpToDone(data[1..]);
        AllPlainStep(data[0], UpToDone(data[1..]));
      } else {
        DoneIsPlain();
      }
    }
  }

  lemma DoneIsPlain()
    ensures Plain(DONE)
  {
    assert !IsSpace(DONE[0]) && !IsSpace(DONE[|DONE| - 1]);
  }

  lemma AllPlainStep(first: string, data: seq<string>)
    ensures AllPlain([first] + data) <==> Plain(first) && AllPlain(data)
  {
    var all := [first] + data;
    assert all[0] == first;
    forall i | 0 <= i < |data| ensures data[i] == all[i + 1] {}
  }

  // ----- With or without the final line breaks ----------------------------------------

  function PrintedBlocks(data: seq<string>): seq<Block> {
    seq(|data|, i requires 0 <= i < |data| => Block(["data: " + data[i]], ""))
  }

  lemma {:induction false} PrintedAsBlocks(data: seq<string>)
    requires AllPlain(data)
    ensures AreBlocks(PrintedBlocks(data)) && BlocksText(PrintedBlocks(data)) == Print(data) && BlockData(PrintedBlocks(data)) == data
  {
    if data != [] {
      assert Plain(data[0]);
      PrintedAsBlocks(data[1..]);
      FirstBlock(data[0]);
      OneMoreBlock(Block(["data: " + data[0]], ""), PrintedBlocks(data[1..]));
      assert PrintedBlocks(data) == [Block(["data: " + data[0]], "")] + PrintedBlocks(data[1..]);
      assert data == [data[0]] + data[1..];
    }
  }

  lemma FirstBlock(data: string)
    requires Plain(data)
    ensures var block := Block(["data: " + data], "");
            AreLines(block.lines) && IsBlank(block.blank) && BlockText(block) == PrintOne(data) && Flush(DataOf(block.lines)) == [data]
  {
    DataLine(data);
    OneLine("data: " + data);
  }

  lemma OneMoreBlock(block: Block, blocks: seq<Block>)
    ensures BlocksText([block] + blocks) == BlockText(block) + BlocksText(blocks)
    ensures BlockData([block] + blocks) == Flush(DataOf(block.lines)) + BlockData(blocks)
  {
    assert ([block] + blocks)[1..] == blocks;
  }

  lemma OneLine(line: string)
    ensures LinesText([line]) == line + "\n" && DataOf([line]) == AppendDataLine([], line)
    ensures BlockText(Block([line], "")) == line + "\n\n"
  {
    assert [line][1..] == [];
  }

  /** The last event arrives even when the body ends right after it, or after one line feed. */
  lemma UnfinishedRelayed(data: seq<string>, last: string)
    requires AllPlain(data) && Plain(last)
    ensures Read(Print(data) + ("data: " + last), []) == UpToDone(data + [last])
    ensures Read(Print(data) + ("data: " + last + "\n"), []) == UpToDone(data + [last])
  {
    DataLine(last);
    NoBreak(data, "data: " + last, last);
    OneBreak(data, "data: " + last, last);
  }

  lemma NoBreak(data: seq<string>, line: string, last: string)
    requires AllPlain(data) && '\n' !in line && AppendDataLine([], line) == [last]
    ensures Read(Print(data) + line, []) == UpToDone(data + [last])
  {
    ReadUnfinished(data, [], line);
    OneLine(line);
    assert [] + [line] == [line] && "" + line == line;
  }

  lemma OneBreak(data: seq<string>, line: string, last: string)
    requires AllPlain(data) && '\n' !in line && TrimBreaks(line) != "" && AppendDataLine([], line) == [last]
    ensures Read(Print(data) + (line + "\n"), []) == UpToDone(data + [last])
  {
    ReadUnfinished(data, [line], "");
    OneLine(line);
    DataOfAppend([line], "");
    assert line + "\n" + "" == line + "\n";
  }

  lemma ReadUnfinished(data: seq<string>, tail: seq<string>, partial: string)
    requires AllPlain(data) && AreLines(tail) && '\n' !in partial
    ensures Read(Print(data) + (LinesText(tail) + partial), []) == UpToDone(data + Flush(DataOf(tail + [partial])))
  {
    PrintedAsBlocks(data);
    var f := Frame(PrintedBlocks(data), tail, partial);
    ReadMeans(f);
    Regroup(Print(data), LinesText(tail), partial);
  }
}
