/** Server-sent events: what the server prints and what the client's decoder reads back
    (section 9.2 of the WHATWG HTML standard). */
module EventStream {
  import opened Options
  import opened Numerals

  // ---------------------------------------------------------------- printing

  /** What the server writes: an event with its number and its data, or a comment. */
  datatype Item = Update(id: int, data: string) | Comment(text: string)

  function Print(item: Item): string {
    match item
    case Update(id, data) =>
      (if id > 0 then "id: " + Decimal(id) + "\n" else "") + ("data: " + data + "\n") + "\n"
    case Comment(text) => (": " + text + "\n") + "\n"
  }

  function PrintAll(items: seq<Item>): string {
    if items == [] then "" else Print(items[0]) + PrintAll(items[1..])
  }

  // ---------------------------------------------------------------- decoding

  datatype Event = Event(id: string, kind: string, data: string)

  const BLANK := Event("", "", "")

  function HasPrefix(s: string, prefix: string): bool {
    prefix <= s
  }

  function TrimCR(line: string): string {
    if line != "" && line[|line| - 1] == '\r' then line[..|line| - 1] else line
  }

  predicate IsSpace(c: char) {
    || c in " \t\n\r" || c == 11 as char || c == 12 as char || c == 0x85 as char || c == 0xA0 as char
    || c == 0x1680 as char || 0x2000 as char <= c <= 0x200a as char || c == 0x2028 as char || c == 0x2029 as char
    || c == 0x202f as char || c == 0x205f as char || c == 0x3000 as char
  }

  function TrimSpace(s: string): string {
    if s != "" && IsSpace(s[0]) then TrimSpace(s[1..])
    else if s != "" && IsSpace(s[|s| - 1]) then TrimSpace(s[..|s| - 1])
    else s
  }

  function JoinLines(lines: seq<string>): string {
    if lines == [] then "" else if |lines| == 1 then lines[0] else lines[0] + "\n" + JoinLines(lines[1..])
  }

  /** The lines of s that end in a newline, without it; an unfinished last line is lost. */
  function Lines(s: string): seq<string> {
    if s == "" then []
    else if s[0] == '\n' then [""] + Lines(s[1..])
    else
      var rest := Lines(s[1..]);
      if rest == [] then [] else [[s[0]] + rest[0]] + rest[1..]
  }

  /** What one call of Next makes of the lines to come, given the fields read so far: the
      event, or None at the end of the stream, and the lines left. */
  function NextOf(lines: seq<string>, ev: Event, dataLines: seq<string>): (r: (Option<Event>, seq<string>))
    ensures |r.1| <= |lines|
    ensures r.0.Some? && dataLines == [] ==> |r.1| < |lines|
    decreases |lines|
  {
    if lines == [] then
      (if dataLines == [] then None else Some(ev.(data := JoinLines(dataLines))), [])
    else
      var line, rest := TrimCR(lines[0]), lines[1..];
      if line == "" then
        if dataLines != [] then (Some(ev.(data := JoinLines(dataLines))), rest)
        else NextOf(rest, ev, dataLines)
      else if HasPrefix(line, "id:") then NextOf(rest, ev.(id := TrimSpace(line[3..])), dataLines)
      else if HasPrefix(line, "event:") then NextOf(rest, ev.(kind := TrimSpace(line[6..])), dataLines)
      else if HasPrefix(line, "data:") then
        var data := line[5..];
        NextOf(rest, ev, dataLines + [if data != "" && data[0] == ' ' then data[1..] else data])
      else NextOf(rest, ev, dataLines)
  }

  /** The events that calling Next to the end of the stream delivers. */
  function DecodeAll(lines: seq<string>): seq<Event>
    decreases |lines|
  {
    var (ev, rest) := NextOf(lines, BLANK, []);
    if ev == None then [] else [ev.value] + DecodeAll(rest)
  }

  lemma {:induction false} LinesStep(s: string, n: nat)
    requires n < |s| && s[n] == '\n' && '\n' !in s[..n]
    ensures Lines(s) == [s[..n]] + Lines(s[n + 1..])
  {
    if n > 0 {
      LinesStep(s[1..], n - 1);
      assert s[1..][..n - 1] == s[1..n];
      assert s[1..][n..] == s[n + 1..];
      assert s[..n] == [s[0]] + s[1..n];
      var rest := Lines(s[1..]);
      assert rest[1..] == Lines(s[n + 1..]);
    }
  }

  lemma {:induction false} NoLine(s: string)
    requires '\n' !in s
    ensures Lines(s) == []
  {
    if s != "" {
      NoLine(s[1..]);
    }
  }

  class Decoder {
    var rest: string

    constructor (stream: string)
      ensures rest == stream
    {
      rest := stream;
    }

    /** Reads up to the next newline; false at the end of the stream. */
    method ReadLine() returns (ok: bool, line: string)
      modifies this
      ensures ok ==> Lines(old(rest)) == [line] + Lines(rest) && |rest| < |old(rest)|
      ensures !ok ==> Lines(old(rest)) == [] && rest == ""
    {
      var n := 0;
      while n < |rest| && rest[n] != '\n'
        invariant n <= |rest| && '\n' !in rest[..n]
      {
        n := n + 1;
      }
      ok := n < |rest|;
      if ok {
        LinesStep(rest, n);
        line := rest[..n];
        rest := rest[n + 1..];
      } else {
        assert rest[..n] == rest;
        NoLine(rest);
        line := rest;
        rest := "";
      }
    }

    method Next() returns (event: Option<Event>)
      modifies this
      ensures (event, Lines(rest)) == NextOf(Lines(old(rest)), BLANK, [])
    {
      var ev := BLANK;
      var dataLines: seq<string> := [];
      while true
        invariant NextOf(Lines(rest), ev, dataLines) == NextOf(Lines(old(rest)), BLANK, [])
        decreases |rest|
      {
        ghost var before := Lines(rest);
        var ok, line := ReadLine();
        if !ok {
          if |dataLines| > 0 {
            return Some(ev.(data := JoinLines(dataLines)));
          }
          return None;
        }
        assert before[0] == line && before[1..] == Lines(rest);
        line := TrimCR(line);
        if line == "" {
          if |dataLines| > 0 {
            return Some(ev.(data := JoinLines(dataLines)));
          }
          continue;
        }
        if HasPrefix(line, "id:") {
          ev := ev.(id := TrimSpace(line[3..]));
          continue;
        }
        if HasPrefix(line, "event:") {
          ev := ev.(kind := TrimSpace(line[6..]));
          continue;
        }
        if HasPrefix(line, "data:") {
          var data := line[5..];
          if |data| > 0 && data[0] == ' ' {
            data := data[1..];
          }
          dataLines := dataLines + [data];
          continue;
        }
      }
    }
  }

  // ---------------------------------------------------------------- the round trip

  /** Text that fits on one line and survives the decoder's trimming. */
  predicate OneLine(s: string) {
    '\n' !in s && (s == "" || s[|s| - 1] != '\r')
  }

  predicate Printable(item: Item) {
    match item
    case Update(_, data) => OneLine(data)
    case Comment(text) => OneLine(text)
  }

  /** The event a printed item stands for. */
  function EventsOf(item: Item): seq<Event> {
    match item
    case Update(id, data) => [Event(if id > 0 then Decimal(id) else "", "", data)]
    case Comment(_) => []
  }

  function EventsOfAll(items: seq<Item>): seq<Event> {
    if items == [] then [] else EventsOf(items[0]) + EventsOfAll(items[1..])
  }

  function LinesOf(item: Item): seq<string> {
    match item
    case Update(id, data) => (if id > 0 then ["id: " + Decimal(id)] else []) + ["data: " + data, ""]
    case Comment(text) => [": " + text, ""]
  }

  lemma {:induction false} TrimOneSpace(s: string)
    requires s != "" && !IsSpace(s[0]) && !IsSpace(s[|s| - 1])
    ensures TrimSpace(" " + s) == s
  {
    assert (" " + s)[1..] == s;
  }

  /** One printed line and what follows it. */
  lemma {:induction false} LinesOfOne(line: string, rest: string)
    requires '\n' !in line
    ensures Lines(line + "\n" + rest) == [line] + Lines(rest)
  {
    var s := line + "\n" + rest;
    assert s[..|line|] == line && s[|line| + 1..] == rest;
    LinesStep(s, |line|);
  }

  lemma {:induction false} LinesOfPrinted(item: Item, rest: string)
    requires Printable(item)
    ensures Lines(Print(item) + rest) == LinesOf(item) + Lines(rest)
  {
    hide Lines, Decimal;
    LinesOfOne("", rest);
    assert "" + "\n" + rest == "\n" + rest;
    match item {
      case Comment(text) =>
        LinesOfOne(": " + text, "\n" + rest);
        assert Print(item) + rest == (": " + text) + "\n" + ("\n" + rest);
      case Update(id, data) =>
        LinesOfOne("data: " + data, "\n" + rest);
        var tail := ("data: " + data) + "\n" + ("\n" + rest);
        if id > 0 {
          DecimalIsDigits(id);
          LinesOfOne("id: " + Decimal(id), tail);
          assert Print(item) + rest == ("id: " + Decimal(id)) + "\n" + tail;
        } else {
          assert Print(item) + rest == tail;
        }
    }
  }

  function LinesOfAll(items: seq<Item>): seq<string> {
    if items == [] then [] else LinesOf(items[0]) + LinesOfAll(items[1..])
  }

  lemma {:induction false} LinesOfStream(items: seq<Item>)
    requires forall i :: 0 <= i < |items| ==> Printable(items[i])
    ensures Lines(PrintAll(items)) == LinesOfAll(items)
  {
    if items != [] {
      LinesOfStream(items[1..]);
      LinesOfPrinted(items[0], PrintAll(items[1..]));
    }
  }

  lemma {:induction false} NextSkipsComment(text: string, rest: seq<string>)
    requires OneLine(text)
    ensures NextOf([": " + text, ""] + rest, BLANK, []) == NextOf(rest, BLANK, [])
    ensures NextOf([": " + text], BLANK, []) == (None, [])
  {
    var line := ": " + text;
    assert TrimCR(line) == line;
    assert line[0] == ':';
    assert ([line, ""] + rest)[1..] == [""] + rest && ([""] + rest)[1..] == rest;
  }

  lemma {:induction false} NextReadsData(data: string, ev: Event, rest: seq<string>)
    requires OneLine(data)
    ensures NextOf(["data: " + data, ""] + rest, ev, []) == (Some(ev.(data := data)), rest)
    ensures NextOf(["data: " + data], ev, []) == (Some(ev.(data := data)), [])
  {
    var line := "data: " + data;
    assert TrimCR(line) == line && line[5..] == " " + data && (" " + data)[1..] == data;
    assert line[0] == 'd';
    assert [] + [data] == [data];
    assert ([line, ""] + rest)[1..] == [""] + rest && ([""] + rest)[1..] == rest;
  }

  lemma {:induction false} NextReadsId(id: nat, rest: seq<string>)
    ensures NextOf(["id: " + Decimal(id)] + rest, BLANK, []) == NextOf(rest, BLANK.(id := Decimal(id)), [])
  {
    hide Decimal;
    var value := Decimal(id);
    DecimalIsDigits(id);
    TrimOneSpace(value);
    var line := "id: " + value;
    assert TrimCR(line) == line;
    assert line[3..] == " " + value;
    assert ([line] + rest)[1..] == rest;
  }

  /** A printed item followed by anything decodes to its event and then the rest. */
  lemma {:induction false} DecodeItem(item: Item, rest: seq<string>)
    requires Printable(item)
    ensures DecodeAll(LinesOf(item) + rest) == EventsOf(item) + DecodeAll(rest)
  {
    hide NextOf, Decimal;
    match item {
      case Comment(text) => NextSkipsComment(text, rest);
      case Update(id, data) =>
        if id > 0 {
          NextReadsId(id, ["data: " + data, ""] + rest);
          NextReadsData(data, BLANK.(id := Decimal(id)), rest);
          assert LinesOf(item) + rest == ["id: " + Decimal(id)] + (["data: " + data, ""] + rest);
        } else {
          NextReadsData(data, BLANK, rest);
          assert LinesOf(item) + rest == ["data: " + data, ""] + rest;
        }
    }
  }

  lemma {:induction false} DecodeStreamLines(items: seq<Item>)
    requires forall i :: 0 <= i < |items| ==> Printable(items[i])
    ensures DecodeAll(LinesOfAll(items)) == EventsOfAll(items)
  {
    if items != [] {
      hide DecodeAll, LinesOf, EventsOf;
      DecodeStreamLines(items[1..]);
      DecodeItem(items[0], LinesOfAll(items[1..]));
    } else {
      assert NextOf([], BLANK, []) == (None, []);
    }
  }

  /** Decoding what the server printed, heartbeats included, gives exactly the printed
      events in order, and then the end of the stream. */
  lemma {:induction false} DecodeUndoesPrint(items: seq<Item>)
    requires forall i :: 0 <= i < |items| ==> Printable(items[i])
    ensures DecodeAll(Lines(PrintAll(items))) == EventsOfAll(items)
  {
    LinesOfStream(items);
    DecodeStreamLines(items);
  }

  // ---------------------------------------------------------------- a cut connection

  lemma {:induction false} LinesOfPrefix(s: string, n: nat)
    requires n <= |s|
    ensures Lines(s[..n]) <= Lines(s)
  {
    if n > 0 {
      LinesOfPrefix(s[1..], n - 1);
      assert s[..n][1..] == s[1..][..n - 1];
    }
  }

  /** An item cut after some of its lines decodes to its event or to nothing. */
  lemma {:induction false} DecodeCutItem(item: Item, m: nat)
    requires Printable(item) && m < |LinesOf(item)|
    ensures DecodeAll(LinesOf(item)[..m]) <= EventsOf(item)
  {
    assert NextOf([], BLANK, []) == (None, []);
    if m > 0 {
      match item {
        case Comment(text) =>
          NextSkipsComment(text, []);
          assert LinesOf(item)[..m] == [": " + text];
        case Update(id, data) =>
          if id > 0 {
            NextReadsId(id, []);
            NextReadsId(id, ["data: " + data]);
            NextReadsData(data, BLANK.(id := Decimal(id)), []);
            assert ["id: " + Decimal(id)] + [] == ["id: " + Decimal(id)];
            assert LinesOf(item)[..m] == ["id: " + Decimal(id)] || LinesOf(item)[..m] == ["id: " + Decimal(id)] + ["data: " + data];
          } else {
            NextReadsData(data, BLANK, []);
            assert LinesOf(item)[..m] == ["data: " + data];
          }
      }
    }
  }

  lemma {:induction false} DecodeCutLines(items: seq<Item>, m: nat)
    requires forall i :: 0 <= i < |items| ==> Printable(items[i])
    requires m <= |LinesOfAll(items)|
    ensures DecodeAll(LinesOfAll(items)[..m]) <= EventsOfAll(items)
  {
    if items == [] {
      DecodeStreamLines(items);
    } else {
      hide DecodeAll, LinesOf, EventsOf;
      var first, rest := LinesOf(items[0]), LinesOfAll(items[1..]);
      if m < |first| {
        DecodeCutItem(items[0], m);
        assert (first + rest)[..m] == first[..m];
      } else {
        DecodeCutLines(items[1..], m - |first|);
        DecodeItem(items[0], rest[..m - |first|]);
        assert (first + rest)[..m] == first + rest[..m - |first|];
      }
    }
  }

  /** A stream cut at any character decodes to a prefix of the printed events: no event is
      ever delivered damaged. */
  lemma {:induction false} CutStreamLosesOnlyTail(items: seq<Item>, n: nat)
    requires forall i :: 0 <= i < |items| ==> Printable(items[i])
    requires n <= |PrintAll(items)|
    ensures DecodeAll(Lines(PrintAll(items)[..n])) <= EventsOfAll(items)
  {
    LinesOfStream(items);
    LinesOfPrefix(PrintAll(items), n);
    var cut := Lines(PrintAll(items)[..n]);
    assert cut == LinesOfAll(items)[..|cut|];
    DecodeCutLines(items, |cut|);
  }

  // ---------------------------------------------------------------- what any sender may print

  /** A field value that survives the decoder's trimming. */
  predicate IsTrimmed(s: string) {
    s != "" ==> !IsSpace(s[0]) && !IsSpace(s[|s| - 1])
  }

  /** Text as the lines it consists of. */
  function SplitText(text: string): (lines: seq<string>)
    ensures lines != []
  {
    if text == "" then [""]
    else if text[0] == '\n' then [""] + SplitText(text[1..])
    else var rest := SplitText(text[1..]); [[text[0]] + rest[0]] + rest[1..]
  }

  lemma {:induction false} JoinUndoesSplit(text: string)
    ensures JoinLines(SplitText(text)) == text
  {
    if text != "" {
      JoinUndoesSplit(text[1..]);
      var rest := SplitText(text[1..]);
      assert text == [text[0]] + text[1..];
      if text[0] == '\n' {
        assert ([""] + rest)[1..] == rest;
      } else {
        var lines := [[text[0]] + rest[0]] + rest[1..];
        assert lines[1..] == rest[1..];
      }
    }
  }

  function DataLines(lines: seq<string>): seq<string> {
    if lines == [] then [] else ["data: " + lines[0]] + DataLines(lines[1..])
  }

  /** The lines that send an event: its ID, its kind and its text, line by line. */
  function SendLines(id: string, kind: string, text: string): seq<string> {
    ["id: " + id, "event: " + kind] + DataLines(SplitText(text)) + [""]
  }

  lemma {:induction false} NextReadsLines(lines: seq<string>, ev: Event, dataLines: seq<string>, rest: seq<string>)
    requires forall i :: 0 <= i < |lines| ==> TrimCR(lines[i]) == lines[i]
    requires dataLines + lines != []
    ensures NextOf(DataLines(lines) + ([""] + rest), ev, dataLines) == (Some(ev.(data := JoinLines(dataLines + lines))), rest)
    decreases |lines|
  {
    hide NextOf, TrimCR, JoinLines;
    if lines == [] {
      assert DataLines(lines) + ([""] + rest) == [""] + rest && dataLines + lines == dataLines;
      BlankLineEnds(ev, dataLines, rest);
    } else {
      NextReadsLines(lines[1..], ev, dataLines + [lines[0]], rest);
      assert dataLines + [lines[0]] + lines[1..] == dataLines + lines;
      var tail := DataLines(lines[1..]) + ([""] + rest);
      OneDataLine(lines[0], tail, ev, dataLines);
      FirstDataLine(lines, [""] + rest);
    }
  }

  lemma FirstDataLine(lines: seq<string>, rest: seq<string>)
    requires lines != []
    ensures DataLines(lines) + rest == ["data: " + lines[0]] + (DataLines(lines[1..]) + rest)
  {
  }

  lemma BlankLineEnds(ev: Event, dataLines: seq<string>, rest: seq<string>)
    requires dataLines != []
    ensures NextOf([""] + rest, ev, dataLines) == (Some(ev.(data := JoinLines(dataLines))), rest)
  {
    assert ([""] + rest)[1..] == rest;
  }

  lemma OneDataLine(data: string, rest: seq<string>, ev: Event, dataLines: seq<string>)
    requires TrimCR(data) == data
    ensures NextOf(["data: " + data] + rest, ev, dataLines) == NextOf(rest, ev, dataLines + [data])
  {
    var line := "data: " + data;
    assert TrimCR(line) == line && line[5..] == " " + data && (" " + data)[1..] == data;
    assert line[0] == 'd';
    assert ([line] + rest)[1..] == rest;
  }

  lemma TrimsToValue(s: string)
    requires IsTrimmed(s)
    ensures TrimSpace(" " + s) == s
  {
    if s != "" {
      TrimOneSpace(s);
    }
    assert (" " + s)[1..] == s;
  }

  lemma NextReadsIdAndKind(id: string, kind: string, rest: seq<string>)
    requires IsTrimmed(id) && IsTrimmed(kind)
    ensures NextOf(["id: " + id, "event: " + kind] + rest, BLANK, []) == NextOf(rest, Event(id, kind, ""), [])
  {
    var first, second := "id: " + id, "event: " + kind;
    TrimsToValue(id);
    TrimsToValue(kind);
    assert TrimCR(first) == first && first[3..] == " " + id && first[0] == 'i';
    assert TrimCR(second) == second && second[6..] == " " + kind && second[0] == 'e';
    assert ([first, second] + rest)[1..] == [second] + rest && ([second] + rest)[1..] == rest;
  }

  /** An event with any ID and kind, and a text of any number of lines, is read back. */
  lemma NextReadsEvent(id: string, kind: string, text: string, rest: seq<string>)
    requires IsTrimmed(id) && IsTrimmed(kind) && '\r' !in text
    ensures NextOf(SendLines(id, kind, text) + rest, BLANK, []) == (Some(Event(id, kind, text)), rest)
  {
    var lines := SplitText(text);
    SendLinesAre(id, kind, text, rest);
    hide *;
    NoReturns(text);
    JoinUndoesSplit(text);
    NextReadsLines(lines, Event(id, kind, ""), [], rest);
    assert [] + lines == lines;
    NextReadsIdAndKind(id, kind, DataLines(lines) + ([""] + rest));
  }

  lemma SendLinesAre(id: string, kind: string, text: string, rest: seq<string>)
    ensures SendLines(id, kind, text) + rest
      == ["id: " + id, "event: " + kind] + (DataLines(SplitText(text)) + ([""] + rest))
  {
    hide DataLines, SplitText;
  }

  lemma {:induction false} NoReturns(text: string)
    requires '\r' !in text
    ensures forall i :: 0 <= i < |SplitText(text)| ==> '\r' !in SplitText(text)[i]
    ensures forall i :: 0 <= i < |SplitText(text)| ==> TrimCR(SplitText(text)[i]) == SplitText(text)[i]
  {
    if text != "" {
      NoReturns(text[1..]);
    }
  }

  // ---------------------------------------------------------------- line ends

  /** The same lines, some of them ended by a carriage return as well. */
  ghost predicate SameLines(lines: seq<string>, other: seq<string>) {
    |lines| == |other| && forall i :: 0 <= i < |lines| ==> SameLine(lines[i], other[i])
  }

  predicate SameLine(line: string, other: string) {
    other == line || (other == line + "\r" && (line == "" || line[|line| - 1] != '\r'))
  }

  lemma SameLineTrims(line: string, other: string)
    requires SameLine(line, other)
    ensures TrimCR(other) == TrimCR(line)
  {
  }

  lemma {:induction false} NextIgnoresReturns(lines: seq<string>, other: seq<string>, ev: Event, dataLines: seq<string>)
    requires SameLines(lines, other)
    ensures NextOf(other, ev, dataLines).0 == NextOf(lines, ev, dataLines).0
    ensures SameLines(NextOf(lines, ev, dataLines).1, NextOf(other, ev, dataLines).1)
    decreases |lines|
  {
    if lines != [] {
      var line, rest, others := TrimCR(lines[0]), lines[1..], other[1..];
      assert SameLines(rest, others) && SameLine(lines[0], other[0]);
      SameLineTrims(lines[0], other[0]);
      hide TrimCR, SameLines, SameLine, TrimSpace, JoinLines;
      if line == "" {
        NextIgnoresReturns(rest, others, ev, dataLines);
      } else if HasPrefix(line, "id:") {
        NextIgnoresReturns(rest, others, ev.(id := TrimSpace(line[3..])), dataLines);
      } else if HasPrefix(line, "event:") {
        NextIgnoresReturns(rest, others, ev.(kind := TrimSpace(line[6..])), dataLines);
      } else if HasPrefix(line, "data:") {
        var data := line[5..];
        NextIgnoresReturns(rest, others, ev, dataLines + [if data != "" && data[0] == ' ' then data[1..] else data]);
      } else {
        NextIgnoresReturns(rest, others, ev, dataLines);
      }
    }
  }

  /** A stream decodes to the same events whichever of the two line ends its lines have. */
  lemma {:induction false} ReturnsDoNotMatter(lines: seq<string>, other: seq<string>)
    requires SameLines(lines, other)
    ensures DecodeAll(other) == DecodeAll(lines)
    decreases |lines|
  {
    NextIgnoresReturns(lines, other, BLANK, []);
    hide NextOf, SameLines;
    var (ev, rest) := NextOf(lines, BLANK, []);
    if ev.Some? {
      ReturnsDoNotMatter(rest, NextOf(other, BLANK, []).1);
    }
  }
}
