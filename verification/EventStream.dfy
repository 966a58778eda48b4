/** The incremental event-stream reader of apps/webchat/src/api/client.ts. It reads a subset
    of text/event-stream (section 9.2.6 of the WHATWG HTML Standard): a line ends in LF or
    CRLF, never in a lone CR, all white space in front of a data value is dropped, and an
    unfinished last block is still delivered. */
module EventStream {
  import opened Outcomes
  import opened Sequences

  datatype Call = Call(event: string, data: string)

  // ---- text ----

  /** The length of the line end (LF or CRLF) at i, 0 if there is none. */
  function LineEnd(s: string, i: nat): nat
  {
    if i < |s| && s[i] == '\n' then 1
    else if i + 1 < |s| && s[i] == '\r' && s[i + 1] == '\n' then 2
    else 0
  }

  /** The length of the match of /\r?\n\r?\n/ at i, 0 if there is none. */
  function BoundaryAt(s: string, i: nat): nat
  {
    var first := LineEnd(s, i);
    if first == 0 || LineEnd(s, i + first) == 0 then 0 else first + LineEnd(s, i + first)
  }

  ghost predicate NoBoundary(s: string, end: nat)
  {
    forall i :: 0 <= i < end ==> BoundaryAt(s, i) == 0
  }

  /** String.search for /\r?\n\r?\n/: the leftmost match. */
  function SearchFrom(s: string, from: nat): (r: Option<nat>)
    requires from <= |s| && NoBoundary(s, from)
    ensures r.Some? ==> r.value < |s| && BoundaryAt(s, r.value) > 0 && NoBoundary(s, r.value)
    ensures r.None? ==> NoBoundary(s, |s|)
    decreases |s| - from
  {
    if from == |s| then None
    else if BoundaryAt(s, from) > 0 then Some(from)
    else SearchFrom(s, from + 1)
  }

  function Search(s: string): (r: Option<nat>)
    ensures r.Some? ==> r.value < |s| && BoundaryAt(s, r.value) > 0 && NoBoundary(s, r.value)
    ensures r.None? ==> NoBoundary(s, |s|)
  {
    SearchFrom(s, 0)
  }

  /** String.split(/\r?\n/). */
  function Lines(s: string): (r: seq<string>)
    ensures r != []
  {
    if s == "" then [""]
    else if LineEnd(s, 0) > 0 then [""] + Lines(s[LineEnd(s, 0)..])
    else Prefixed(s[0], Lines(s[1..]))
  }

  function Prefixed(c: char, lines: seq<string>): (r: seq<string>)
    requires lines != []
    ensures |r| == |lines| && r[0] == [c] + lines[0] && r[1..] == lines[1..]
  {
    [[c] + lines[0]] + lines[1..]
  }

  predicate IsSpace(c: char)
  {
    '\t' <= c <= '\r' || c == ' ' || c == '\U{00A0}' || c == '\U{1680}' || '\U{2000}' <= c <= '\U{200A}'
    || '\U{2028}' <= c <= '\U{2029}' || c == '\U{202F}' || c == '\U{205F}' || c == '\U{3000}' || c == '\U{FEFF}'
  }

  function TrimStart(s: string): string
  {
    if s != "" && IsSpace(s[0]) then TrimStart(s[1..]) else s
  }

  function TrimEnd(s: string): string
  {
    if s != "" && IsSpace(s[|s| - 1]) then TrimEnd(s[..|s| - 1]) else s
  }

  function Trim(s: string): string
  {
    TrimEnd(TrimStart(s))
  }

  /** The white space and line ends of ECMAScript. */
  lemma SpaceCharacters(c: char)
    ensures IsSpace(c) <==>
      c in {'\U{0009}', '\U{000A}', '\U{000B}', '\U{000C}', '\U{000D}', '\U{0020}', '\U{00A0}', '\U{1680}',
            '\U{2000}', '\U{2001}', '\U{2002}', '\U{2003}', '\U{2004}', '\U{2005}', '\U{2006}', '\U{2007}',
            '\U{2008}', '\U{2009}', '\U{200A}', '\U{2028}', '\U{2029}', '\U{202F}', '\U{205F}', '\U{3000}',
            '\U{FEFF}'}
  {
  }

  predicate Blank(s: string)
  {
    forall i :: 0 <= i < |s| ==> IsSpace(s[i])
  }

  /** White space goes at both ends, and nothing else goes. */
  lemma TrimMeaning(before: string, core: string, after: string)
    requires Blank(before) && Blank(after)
    requires core != "" ==> !IsSpace(core[0]) && !IsSpace(core[|core| - 1])
    ensures Trim(before + core + after) == core
    ensures TrimStart(before + core) == core
  {
    hide TrimStart, TrimEnd;
    TrimmedStart(before, core);
    if core == "" {
      assert before + core + after == (before + after) + "";
      TrimmedStart(before + after, "");
      TrimmedEnd("", "");
      assert TrimStart(before + core + after) == "" && "" + "" == "";
    } else {
      assert before + core + after == before + (core + after);
      TrimmedStart(before, core + after);
      TrimmedEnd(core, after);
    }
  }

  lemma {:induction false} TrimmedStart(before: string, rest: string)
    requires Blank(before) && (rest != "" ==> !IsSpace(rest[0]))
    ensures TrimStart(before + rest) == rest
  {
    if before == "" {
      assert before + rest == rest;
    } else {
      TrimmedStart(before[1..], rest);
      assert (before + rest)[1..] == before[1..] + rest;
    }
  }

  lemma {:induction false} TrimmedEnd(core: string, after: string)
    requires Blank(after) && (core != "" ==> !IsSpace(core[|core| - 1]))
    ensures TrimEnd(core + after) == core
  {
    if after == "" {
      assert core + after == core;
    } else {
      TrimmedEnd(core, after[..|after| - 1]);
      assert (core + after)[..|core + after| - 1] == core + after[..|after| - 1];
    }
  }

  function Join(lines: seq<string>): string
  {
    if lines == [] then ""
    else if |lines| == 1 then lines[0]
    else lines[0] + "\n" + Join(lines[1..])
  }

  // ---- the reference: a machine over lines ----

  datatype Pending = Pending(event: string, data: seq<string>)

  const START := Pending("message", [])

  function Field(p: Pending, line: string): Pending
  {
    if "event:" <= line then p.(event := Trim(line[|"event:"|..]))
    else if "data:" <= line then p.(data := p.data + [TrimStart(line[|"data:"|..])])
    else p
  }

  function Fields(p: Pending, lines: seq<string>): Pending
    decreases lines
  {
    if lines == [] then p else Fields(Field(p, lines[0]), lines[1..])
  }

  function Dispatch(p: Pending): seq<Call>
  {
    if p.data == [] then [] else [Call(p.event, Join(p.data))]
  }

  /** Line by line: an empty line, or the end of the text, delivers the fields since the last one. */
  function Interpret(p: Pending, lines: seq<string>): seq<Call>
    decreases lines
  {
    if lines == [] then Dispatch(p)
    else if lines[0] == "" then Dispatch(p) + Interpret(START, lines[1..])
    else Interpret(Field(p, lines[0]), lines[1..])
  }

  // ---- the reader ----

  /** What one block delivers, and what a whole text delivers when cut into blocks. */
  function BlockCalls(block: string): seq<Call>
  {
    if Trim(block) == "" then [] else Dispatch(Fields(START, Lines(block)))
  }

  function TextCalls(text: string): seq<Call>
    decreases |text|
  {
    match Search(text)
    case None => BlockCalls(text)
    case Some(b) => BlockCalls(text[..b]) + TextCalls(AfterBoundary(text, b))
  }

  function AfterBoundary(text: string, b: nat): (rest: string)
    requires BoundaryAt(text, b) > 0
    ensures |rest| < |text| && rest == text[b + BoundaryAt(text, b)..]
  {
    text[b + BoundaryAt(text, b)..]
  }

  method FlushBlock(block: string) returns (calls: seq<Call>)
    ensures calls == Dispatch(Fields(START, Lines(block)))
  {
    var lines := Lines(block);
    var event := "message";
    var dataLines := [];
    for i := 0 to |lines|
      invariant Fields(START, lines) == Fields(Pending(event, dataLines), lines[i..])
    {
      var line := lines[i];
      if "event:" <= line {
        event := Trim(line[|"event:"|..]);
      } else if "data:" <= line {
        dataLines := dataLines + [TrimStart(line[|"data:"|..])];
      }
    }
    calls := [];
    if |dataLines| > 0 {
      calls := [Call(event, Join(dataLines))];
    }
  }

  method DeliverBlock(block: string) returns (calls: seq<Call>)
    ensures calls == BlockCalls(block)
  {
    calls := [];
    if Trim(block) != "" {
      calls := FlushBlock(block);
    }
  }

  /** The inner loop: delivers every complete block of the buffer. */
  method DrainBlocks(received: string, ghost rest: string) returns (buffer: string, calls: seq<Call>)
    ensures Search(buffer).None?
    ensures TextCalls(received + rest) == calls + TextCalls(buffer + rest)
  {
    buffer, calls := received, [];
    var boundary := Search(buffer);
    while boundary.Some?
      invariant boundary == Search(buffer)
      invariant TextCalls(received + rest) == calls + TextCalls(buffer + rest)
      decreases |buffer|
    {
      CutStable(buffer, rest);
      var delivered := DeliverBlock(buffer[..boundary.value]);
      buffer := AfterBoundary(buffer, boundary.value);
      Regroup(calls, delivered, TextCalls(buffer + rest));
      calls := calls + delivered;
      boundary := Search(buffer);
    }
  }

  /** The reading loop. `received` are the decoded texts of the reads before the one that
      reports the end, and `last` is what that one still yields. */
  method RequestEventStream(received: seq<string>, last: string) returns (calls: seq<Call>)
    ensures calls == Interpret(START, Lines(Flatten(received) + last))
  {
    ghost var text := Flatten(received) + last;
    calls := [];
    var buffer := "";
    var i := 0;
    var done := false;
    ghost var rest := text;
    assert buffer + rest == rest;
    while !done
      invariant 0 <= i <= |received| + 1 && (done <==> i == |received| + 1)
      invariant rest == Unread(received, last, i)
      invariant TextCalls(text) == calls + TextCalls(buffer + rest)
      invariant done ==> Search(buffer).None?
      decreases |received| + 1 - i
    {
      done := i == |received|;
      var value := if done then last else received[i];
      ghost var later := Unread(received, last, i + 1);
      UnreadStep(received, last, i, buffer);
      var delivered;
      buffer, delivered := DrainBlocks(buffer + value, later);
      Regroup(calls, delivered, TextCalls(buffer + later));
      calls := calls + delivered;
      rest := later;
      i := i + 1;
    }
    assert buffer + rest == buffer;
    var delivered := DeliverBlock(buffer);
    calls := calls + delivered;
    BlocksFollowLines(text);
  }

  ghost function Unread(received: seq<string>, last: string, i: nat): string
    requires i <= |received| + 1
  {
    if i > |received| then "" else Flatten(received[i..]) + last
  }

  lemma UnreadStep(received: seq<string>, last: string, i: nat, buffer: string)
    requires i <= |received|
    ensures buffer + Unread(received, last, i)
         == buffer + (if i == |received| then last else received[i]) + Unread(received, last, i + 1)
  {
  }

  // ---- why the cut into reads does not matter ----

  /** The leftmost boundary of a buffer stays the leftmost, with the same length, whatever
      is read next: a match cannot begin earlier and end later. */
  lemma BoundaryStable(s: string, more: string)
    requires Search(s).Some?
    ensures Search(s + more) == Search(s)
    ensures BoundaryAt(s + more, Search(s).value) == BoundaryAt(s, Search(s).value)
  {
    var b := Search(s).value;
    forall i | 0 <= i < b
      ensures BoundaryAt(s + more, i) == 0
    {
      assert BoundaryAt(s, i) == 0;
      assert BoundaryAt(s, b) > 0;
      if i + 3 < |s| {
        assert LineEnd(s + more, i) == LineEnd(s, i);
      }
    }
    BoundaryExtends(s, more, b);
    assert Search(s + more).Some?;
  }

  lemma CutStable(s: string, more: string)
    requires Search(s).Some?
    ensures var b := Search(s).value;
            TextCalls(s + more) == BlockCalls(s[..b]) + TextCalls(AfterBoundary(s, b) + more)
  {
    var b := Search(s).value;
    BoundaryStable(s, more);
    assert (s + more)[..b] == s[..b];
    assert AfterBoundary(s + more, b) == AfterBoundary(s, b) + more;
  }

  lemma BoundaryExtends(s: string, more: string, b: nat)
    requires BoundaryAt(s, b) > 0
    ensures BoundaryAt(s + more, b) == BoundaryAt(s, b)
  {
    var first := LineEnd(s, b);
    assert LineEnd(s + more, b) == first;
    assert LineEnd(s + more, b + first) == LineEnd(s, b + first);
  }

  // ---- why cutting at boundaries is reading line by line ----

  lemma {:induction false} LinesAppend(a: string, end: string, rest: string)
    requires end == "\n" || end == "\r\n"
    requires end == "\n" && a != "" ==> a[|a| - 1] != '\r'
    ensures Lines(a + (end + rest)) == Lines(a) + Lines(rest)
  {
    if a == "" {
      assert a + (end + rest) == end + rest && (end + rest)[|end|..] == rest;
    } else if LineEnd(a, 0) > 0 {
      LinesAppend(a[LineEnd(a, 0)..], end, rest);
      LinesAppendEol(a, end + rest, Lines(rest));
    } else {
      LinesAppend(a[1..], end, rest);
      LinesAppendChar(a, end + rest, Lines(rest));
    }
  }

  lemma LinesAppendEol(a: string, more: string, lines: seq<string>)
    requires LineEnd(a, 0) > 0
    requires Lines(a[LineEnd(a, 0)..] + more) == Lines(a[LineEnd(a, 0)..]) + lines
    ensures Lines(a + more) == Lines(a) + lines
  {
    var k := LineEnd(a, 0);
    var tail := a[k..];
    hide *;
    EndKept(a, more);
    LinesEol(a, tail);
    LinesEol(a + more, tail + more);
    Regroup([""], Lines(tail), lines);
  }

  lemma EndKept(a: string, more: string)
    requires LineEnd(a, 0) > 0
    ensures LineEnd(a + more, 0) == LineEnd(a, 0)
    ensures (a + more)[LineEnd(a, 0)..] == a[LineEnd(a, 0)..] + more
  {
  }

  lemma LinesEol(s: string, tail: string)
    requires LineEnd(s, 0) > 0 && tail == s[LineEnd(s, 0)..]
    ensures Lines(s) == [""] + Lines(tail)
  {
  }

  lemma LinesAppendChar(a: string, more: string, lines: seq<string>)
    requires a != "" && LineEnd(a, 0) == 0 == LineEnd(a + more, 0)
    requires Lines(a[1..] + more) == Lines(a[1..]) + lines
    ensures Lines(a + more) == Lines(a) + lines
  {
    assert (a + more)[1..] == a[1..] + more;
  }

  lemma {:induction false} InnerLines(s: string)
    requires NoBoundary(s, |s|)
    ensures forall j :: 1 <= j < |Lines(s)| - 1 ==> Lines(s)[j] != ""
  {
    if s != "" {
      var k := if LineEnd(s, 0) > 0 then LineEnd(s, 0) else 1;
      var rest := s[k..];
      forall i | 0 <= i < |rest|
        ensures BoundaryAt(rest, i) == 0
      {
        assert BoundaryAt(s, i + k) == 0;
        assert LineEnd(s, i + k) == LineEnd(rest, i);
        var first := LineEnd(rest, i);
        assert LineEnd(s, i + k + first) == LineEnd(rest, i + first);
      }
      InnerLines(rest);
      if LineEnd(s, 0) > 0 {
        assert BoundaryAt(s, 0) == 0;
        assert LineEnd(rest, 0) == LineEnd(s, k);
      }
    }
  }

  lemma {:induction false} InterpretBlock(p: Pending, lines: seq<string>, rest: seq<string>)
    requires forall j :: 0 <= j < |lines| ==> lines[j] != ""
    ensures Interpret(p, lines + [""] + rest) == Dispatch(Fields(p, lines)) + Interpret(START, rest)
    ensures Interpret(p, lines) == Dispatch(Fields(p, lines))
    ensures Interpret(p, lines + [""]) == Dispatch(Fields(p, lines))
    decreases lines
  {
    if lines == [] {
      assert lines + [""] + rest == [""] + rest;
      assert Interpret(p, lines + [""]) == Dispatch(p) + Interpret(START, []);
    } else {
      InterpretBlock(Field(p, lines[0]), lines[1..], rest);
      assert (lines + [""] + rest)[1..] == lines[1..] + [""] + rest;
      assert (lines + [""])[1..] == lines[1..] + [""];
    }
  }

  /** A leading empty line in a block changes nothing. */
  lemma InterpretLeading(lines: seq<string>, rest: seq<string>)
    requires lines != [] && forall j :: 1 <= j < |lines| ==> lines[j] != ""
    ensures Interpret(START, lines + [""] + rest) == Dispatch(Fields(START, lines)) + Interpret(START, rest)
    ensures Interpret(START, lines) == Dispatch(Fields(START, lines))
    ensures Interpret(START, lines + [""]) == Dispatch(Fields(START, lines))
  {
    if lines[0] == "" {
      InterpretBlock(START, lines[1..], rest);
      assert (lines + [""] + rest)[1..] == lines[1..] + [""] + rest;
      assert (lines + [""])[1..] == lines[1..] + [""];
    } else {
      InterpretBlock(START, lines, rest);
    }
  }

  lemma {:induction false} BlankLines(s: string)
    requires forall i :: 0 <= i < |s| ==> IsSpace(s[i])
    ensures forall j, i :: 0 <= j < |Lines(s)| && 0 <= i < |Lines(s)[j]| ==> IsSpace(Lines(s)[j][i])
  {
    if s != "" {
      BlankLines(s[if LineEnd(s, 0) > 0 then LineEnd(s, 0) else 1..]);
    }
  }

  lemma {:induction false} FieldsOfBlank(p: Pending, lines: seq<string>)
    requires forall j, i :: 0 <= j < |lines| && 0 <= i < |lines[j]| ==> IsSpace(lines[j][i])
    ensures Fields(p, lines) == p
  {
    if lines != [] {
      assert lines[0] == "" || IsSpace(lines[0][0]);
      FieldsOfBlank(p, lines[1..]);
    }
  }

  lemma {:induction false} TrimmedAway(s: string)
    requires Trim(s) == ""
    ensures forall i :: 0 <= i < |s| ==> IsSpace(s[i])
  {
    if s != "" {
      if IsSpace(s[0]) {
        TrimmedAway(s[1..]);
        assert forall i :: 1 <= i < |s| ==> s[i] == s[1..][i - 1];
      } else {
        TrimEndKeeps(s);
      }
    }
  }

  lemma {:induction false} TrimEndKeeps(s: string)
    requires s != "" && !IsSpace(s[0])
    ensures TrimEnd(s) != "" && TrimEnd(s)[0] == s[0]
  {
    if IsSpace(s[|s| - 1]) {
      TrimEndKeeps(s[..|s| - 1]);
    }
  }

  lemma BlockCallsMeaning(block: string)
    ensures BlockCalls(block) == Dispatch(Fields(START, Lines(block)))
  {
    if Trim(block) == "" {
      TrimmedAway(block);
      BlankLines(block);
      FieldsOfBlank(START, Lines(block));
    }
  }

  lemma {:induction false} BlocksFollowLines(text: string)
    ensures TextCalls(text) == Interpret(START, Lines(text))
    decreases |text|
  {
    match Search(text)
    case None =>
      BlockCallsMeaning(text);
      InnerLines(text);
      LastLine(text);
    case Some(b) =>
      BlocksFollowLines(AfterBoundary(text, b));
      BlockCallsMeaning(text[..b]);
      CutAtBoundary(text, b);
      InterpretLeading(Lines(text[..b]), Lines(AfterBoundary(text, b)));
  }

  lemma LastLine(text: string)
    requires forall j :: 1 <= j < |Lines(text)| - 1 ==> Lines(text)[j] != ""
    ensures Interpret(START, Lines(text)) == Dispatch(Fields(START, Lines(text)))
  {
    var lines := Lines(text);
    var n := |lines| - 1;
    if n > 0 && lines[n] == "" {
      InterpretLeading(lines[..n], []);
      assert lines == lines[..n] + [""];
      FieldsSnoc(START, lines[..n], "");
    } else {
      InterpretLeading(lines, []);
    }
  }

  lemma {:induction false} FieldsSnoc(p: Pending, lines: seq<string>, last: string)
    ensures Fields(p, lines + [last]) == Field(Fields(p, lines), last)
    decreases lines
  {
    if lines == [] {
      assert Fields(Field(p, last), []) == Field(p, last);
      assert lines + [last] == [last];
    } else {
      FieldsSnoc(Field(p, lines[0]), lines[1..], last);
      assert (lines + [last])[1..] == lines[1..] + [last];
    }
  }

  lemma CutAtBoundary(text: string, b: nat)
    requires b < |text| && BoundaryAt(text, b) > 0 && NoBoundary(text, b)
    ensures Lines(text) == Lines(text[..b]) + [""] + Lines(AfterBoundary(text, b))
    ensures forall j :: 1 <= j < |Lines(text[..b])| ==> Lines(text[..b])[j] != ""
  {
    var first := LineEnd(text, b);
    var block, one, two := text[..b], text[b..b + first], text[b + first..b + BoundaryAt(text, b)];
    var rest := AfterBoundary(text, b);
    assert b > 0 ==> BoundaryAt(text, b - 1) == 0;
    assert two + rest == text[b + first..];
    assert one + text[b + first..] == text[b..];
    assert text == block + (one + (two + rest));
    CutLines(block, one, two, rest);
    BlockLines(text, b, one);
  }

  lemma BlockLines(text: string, b: nat, one: string)
    requires b < |text| && BoundaryAt(text, b) > 0 && NoBoundary(text, b)
    requires one == text[b..b + LineEnd(text, b)]
    requires Lines(text[..b] + one) == Lines(text[..b]) + [""]
    ensures forall j :: 1 <= j < |Lines(text[..b])| ==> Lines(text[..b])[j] != ""
  {
    assert text[..b + LineEnd(text, b)] == text[..b] + one;
    HeadHasNoBoundary(text, b);
    InnerLines(text[..b] + one);
    AllButLast(Lines(text[..b]), Lines(text[..b] + one));
  }

  lemma AllButLast(inner: seq<string>, all: seq<string>)
    requires all == inner + [""]
    requires forall j :: 1 <= j < |all| - 1 ==> all[j] != ""
    ensures forall j :: 1 <= j < |inner| ==> inner[j] != ""
  {
    assert forall j :: 1 <= j < |inner| ==> all[j] == inner[j];
  }

  lemma CutLines(block: string, one: string, two: string, rest: string)
    requires one == "\n" || one == "\r\n"
    requires two == "\n" || two == "\r\n"
    requires one == "\n" && block != "" ==> block[|block| - 1] != '\r'
    ensures Lines(block + (one + (two + rest))) == Lines(block) + [""] + Lines(rest)
    ensures Lines(block + one) == Lines(block) + [""]
  {
    LinesAppend(block, one, two + rest);
    LeadingEnd(two, rest);
    Regroup(Lines(block), [""], Lines(rest));
    TrailingEnd(block, one);
  }

  lemma LeadingEnd(end: string, rest: string)
    requires end == "\n" || end == "\r\n"
    ensures Lines(end + rest) == [""] + Lines(rest)
  {
    assert (end + rest)[|end|..] == rest;
  }

  lemma TrailingEnd(a: string, end: string)
    requires end == "\n" || end == "\r\n"
    requires end == "\n" && a != "" ==> a[|a| - 1] != '\r'
    ensures Lines(a + end) == Lines(a) + [""]
  {
    LinesAppend(a, end, "");
    assert end + "" == end;
  }

  lemma HeadHasNoBoundary(text: string, b: nat)
    requires b < |text| && BoundaryAt(text, b) > 0 && NoBoundary(text, b)
    ensures var head := text[..b + LineEnd(text, b)]; NoBoundary(head, |head|)
  {
    var head := text[..b + LineEnd(text, b)];
    forall i | 0 <= i < |head|
      ensures BoundaryAt(head, i) == 0
    {
      if i < b {
        assert BoundaryAt(text, i) == 0;
      }
    }
  }

  // ---- what a line and a line of data are ----

  /** With LinesAppend this says what Lines does: text without LF is one line. */
  lemma {:induction false} PlainLines(line: string)
    requires '\n' !in line
    ensures Lines(line) == [line]
  {
    if line != "" {
      assert forall i :: 0 <= i < |line[1..]| ==> line[1..][i] == line[i + 1];
      PlainLines(line[1..]);
      assert [line[0]] + line[1..] == line;
    }
  }

  /** A data line adds its text without the white space in front, an event line sets the event
      to its text without the white space around it, and any other line changes nothing. */
  lemma FieldMeaning(p: Pending, text: string, other: string)
    requires !("event:" <= other) && !("data:" <= other)
    ensures Field(p, "data:" + text) == Pending(p.event, p.data + [TrimStart(text)])
    ensures Field(p, "event:" + text) == Pending(Trim(text), p.data)
    ensures Field(p, other) == p
  {
    assert ("data:" + text)[0] == 'd' && ("data:" + text)[5..] == text;
    assert ("event:" + text)[6..] == text;
  }

  /** Joining data lines separates them by single LFs: they are read back, and no CR is added. */
  lemma {:induction false} JoinRoundTrip(data: seq<string>)
    requires data != [] && forall line :: line in data ==> OneLine(line)
    ensures Lines(Join(data)) == data
    ensures '\r' !in Join(data)
  {
    assert OneLine(data[0]);
    PlainLines(data[0]);
    if |data| == 1 {
      assert data == [data[0]];
    } else {
      JoinRoundTrip(data[1..]);
      LinesAppend(data[0], "\n", Join(data[1..]));
      assert Join(data) == data[0] + ("\n" + Join(data[1..]));
      assert data == [data[0]] + data[1..];
    }
  }

  // ---- what a writer can rely on ----

  predicate OneLine(line: string)
  {
    '\n' !in line && '\r' !in line
  }

  /** An event as a writer sends it: its name, if it has one, then lines that carry neither name
      nor data, then its data lines. */
  datatype Message = Message(event: Option<string>, other: seq<string>, data: seq<string>, crlf: bool)

  predicate Sendable(m: Message)
  {
    && (m.event.Some? ==> OneLine(m.event.value) && Trim(m.event.value) == m.event.value)
    && (forall line :: line in m.other ==> Ignored(line))
    && (forall line :: line in m.data ==> OneLine(line) && TrimStart(line) == line)
  }

  predicate Ignored(line: string)
  {
    line != "" && OneLine(line) && !("event:" <= line) && !("data:" <= line)
  }

  function EndOf(m: Message): string
  {
    if m.crlf then "\r\n" else "\n"
  }

  function DataFields(data: seq<string>): (r: seq<string>)
    ensures |r| == |data|
  {
    seq(|data|, i requires 0 <= i < |data| => "data: " + data[i])
  }

  function EventFields(event: Option<string>): seq<string>
  {
    if event.None? then [] else ["event: " + event.value]
  }

  function MessageLines(m: Message): seq<string>
  {
    EventFields(m.event) + m.other + DataFields(m.data)
  }

  function RenderLines(lines: seq<string>, end: string): string
  {
    if lines == [] then "" else lines[0] + (end + RenderLines(lines[1..], end))
  }

  function Render(m: Message): string
  {
    RenderLines(MessageLines(m), EndOf(m)) + EndOf(m)
  }

  function RenderAll(messages: seq<Message>): string
  {
    if messages == [] then "" else Render(messages[0]) + RenderAll(messages[1..])
  }

  /** A last message whose closing empty line never came. */
  function RenderOpen(last: Option<Message>): string
  {
    if last.None? then "" else RenderLines(MessageLines(last.value), EndOf(last.value))
  }

  /** The messages that have data. */
  function Speaking(messages: seq<Message>): seq<Message>
  {
    if messages == [] then []
    else (if messages[0].data == [] then [] else [messages[0]]) + Speaking(messages[1..])
  }

  /** The call has the message's event, "message" if it names none, and its data lines, each
      from the next by one LF. */
  predicate Carries(call: Call, m: Message)
  {
    && call.event == (match m.event case None => "message" case Some(name) => name)
    && Lines(call.data) == m.data && '\r' !in call.data
  }

  predicate AllCarried(calls: seq<Call>, messages: seq<Message>)
  {
    |calls| == |messages| && forall i :: 0 <= i < |calls| ==> Carries(calls[i], messages[i])
  }

  lemma {:induction false} LinesRendered(lines: seq<string>, end: string, rest: string)
    requires forall line :: line in lines ==> OneLine(line)
    requires end == "\n" || end == "\r\n"
    ensures Lines(RenderLines(lines, end) + rest) == lines + Lines(rest)
  {
    if lines == [] {
      assert RenderLines(lines, end) + rest == rest;
    } else {
      var tail := RenderLines(lines[1..], end);
      assert OneLine(lines[0]);
      LinesRendered(lines[1..], end, rest);
      PlainLines(lines[0]);
      LinesAppend(lines[0], end, tail + rest);
      Regroup(lines[0], end + tail, rest);
      Regroup(end, tail, rest);
      assert lines == [lines[0]] + lines[1..];
      Regroup([lines[0]], lines[1..], Lines(rest));
    }
  }

  lemma {:induction false} FieldsAppend(p: Pending, a: seq<string>, b: seq<string>)
    ensures Fields(p, a + b) == Fields(Fields(p, a), b)
    decreases a
  {
    if a == [] {
      assert a + b == b;
    } else {
      hide Field;
      FieldsAppend(Field(p, a[0]), a[1..], b);
      assert (a + b)[0] == a[0] && (a + b)[1..] == a[1..] + b;
    }
  }

  lemma {:induction false} FieldsOfOther(p: Pending, other: seq<string>)
    requires forall line :: line in other ==> Ignored(line)
    ensures Fields(p, other) == p
    decreases other
  {
    if other != [] {
      assert Ignored(other[0]);
      FieldsOfOther(p, other[1..]);
    }
  }

  lemma {:induction false} FieldsOfData(p: Pending, data: seq<string>)
    requires forall line :: line in data ==> TrimStart(line) == line
    ensures Fields(p, DataFields(data)) == Pending(p.event, p.data + data)
    decreases data
  {
    if data != [] {
      var next := Pending(p.event, p.data + [data[0]]);
      SpacedData(p, data[0]);
      FieldsOfData(next, data[1..]);
      assert DataFields(data)[1..] == DataFields(data[1..]);
      Regroup(p.data, [data[0]], data[1..]);
      assert data == [data[0]] + data[1..];
    }
  }

  lemma SpacedData(p: Pending, line: string)
    requires TrimStart(line) == line
    ensures Field(p, "data: " + line) == Pending(p.event, p.data + [line])
  {
    Spaced(line);
    hide Field, TrimStart;
    FieldMeaning(p, " " + line, "");
    assert "data: " + line == "data:" + (" " + line);
  }

  lemma Spaced(text: string)
    ensures TrimStart(" " + text) == TrimStart(text)
    ensures Trim(" " + text) == Trim(text)
  {
    assert (" " + text)[1..] == text;
  }

  function NameOf(m: Message): string
  {
    if m.event.None? then "message" else m.event.value
  }

  lemma FieldsOfEvent(m: Message)
    requires m.event.Some? ==> Trim(m.event.value) == m.event.value
    ensures Fields(START, EventFields(m.event)) == Pending(NameOf(m), [])
  {
    if m.event.Some? {
      Spaced(m.event.value);
      hide Field, Trim;
      FieldMeaning(START, " " + m.event.value, "");
      var line := "event: " + m.event.value;
      assert line == "event:" + (" " + m.event.value);
      assert [line][1..] == [] && Fields(START, [line]) == Fields(Field(START, line), []);
    }
  }

  lemma MessageFields(m: Message)
    requires Sendable(m)
    ensures Fields(START, MessageLines(m))
         == Pending(NameOf(m), m.data)
    ensures forall line :: line in MessageLines(m) ==> line != "" && OneLine(line)
  {
    hide Trim, TrimStart, Ignored;
    FieldsOfEvent(m);
    var p := Fields(START, EventFields(m.event));
    FieldsOfOther(p, m.other);
    FieldsOfData(p, m.data);
    FieldsAppend(START, EventFields(m.event), m.other);
    FieldsAppend(START, EventFields(m.event) + m.other, DataFields(m.data));
    assert [] + m.data == m.data;
    SentLines(m);
  }

  lemma SentLines(m: Message)
    requires Sendable(m)
    ensures forall line :: line in MessageLines(m) ==> line != "" && OneLine(line)
  {
    forall line | line in MessageLines(m)
      ensures line != "" && OneLine(line)
    {
      if line in DataFields(m.data) {
        var i :| 0 <= i < |m.data| && DataFields(m.data)[i] == line;
        assert OneLine(m.data[i]) by { assert m.data[i] in m.data; }
      } else if line in m.other {
        assert Ignored(line);
      }
    }
  }

  /** The first message is delivered, or dropped if it has no data, whatever follows. */
  lemma OneMessage(m: Message, rest: string)
    requires Sendable(m)
    ensures var calls := Interpret(START, Lines(Render(m) + rest));
            exists own :: calls == own + Interpret(START, Lines(rest)) && AllCarried(own, Speaking([m]))
    ensures AllCarried(Interpret(START, Lines(RenderOpen(Some(m)))), Speaking([m]))
  {
    hide Sendable, MessageLines, Fields, AllCarried, Speaking, RenderLines, Dispatch, Interpret, Lines, NameOf;
    var lines, end := MessageLines(m), EndOf(m);
    MessageFields(m);
    assert forall j :: 0 <= j < |lines| ==> lines[j] in lines;
    LinesRendered(lines, end, end + rest);
    LeadingEnd(end, rest);
    Regroup(RenderLines(lines, end), end, rest);
    Regroup(lines, [""], Lines(rest));
    InterpretBlock(START, lines, Lines(rest));
    Dispatched(m);
    LinesRendered(lines, end, "");
    assert RenderLines(lines, end) + "" == RenderLines(lines, end);
    NothingSent();
  }

  lemma Dispatched(m: Message)
    requires Sendable(m)
    ensures AllCarried(Dispatch(Pending(NameOf(m), m.data)), Speaking([m]))
  {
    assert Speaking([m]) == if m.data == [] then [] else [m];
    if m.data != [] {
      assert forall line :: line in m.data ==> OneLine(line);
      JoinRoundTrip(m.data);
    }
  }

  lemma CarriedTogether(own: seq<Call>, calls: seq<Call>, first: seq<Message>, rest: seq<Message>)
    requires AllCarried(own, first) && AllCarried(calls, rest)
    ensures AllCarried(own + calls, first + rest)
  {
    hide Carries;
  }

  lemma SpeakingCons(m: Message, rest: seq<Message>)
    ensures Speaking([m] + rest) == Speaking([m]) + Speaking(rest)
  {
    assert ([m] + rest)[1..] == rest && [m][1..] == [];
  }

  /** Whatever a writer renders arrives as exactly its messages that have data, in order, with
      either line end, and even when the empty line after the last one never came.
      RequestEventStream adds that no cut into reads can change this. */
  lemma {:induction false} RoundTrip(messages: seq<Message>, last: Option<Message>)
    requires forall m :: m in messages ==> Sendable(m)
    requires last.Some? ==> Sendable(last.value)
    ensures AllCarried(Interpret(START, Lines(RenderAll(messages) + RenderOpen(last))),
                       Speaking(messages + if last.None? then [] else [last.value]))
  {
    hide Sendable, Render, RenderOpen, AllCarried, Speaking, Interpret, Lines;
    var ending := if last.None? then [] else [last.value];
    if messages == [] {
      assert RenderAll(messages) + RenderOpen(last) == RenderOpen(last) && messages + ending == ending;
      match last {
        case None => NothingSent();
        case Some(m) => OneMessage(m, "");
      }
    } else {
      var rest := RenderAll(messages[1..]) + RenderOpen(last);
      RoundTrip(messages[1..], last);
      OneMessage(messages[0], rest);
      Regroup(Render(messages[0]), RenderAll(messages[1..]), RenderOpen(last));
      var own :| Interpret(START, Lines(Render(messages[0]) + rest)) == own + Interpret(START, Lines(rest))
                 && AllCarried(own, Speaking([messages[0]]));
      CarriedTogether(own, Interpret(START, Lines(rest)), Speaking([messages[0]]), Speaking(messages[1..] + ending));
      SpeakingCons(messages[0], messages[1..] + ending);
      assert messages + ending == [messages[0]] + (messages[1..] + ending);
    }
  }

  lemma NothingSent()
    ensures RenderOpen(None) == "" && Speaking([]) == [] && Lines("") == [""]
    ensures Interpret(START, Lines("")) == [] && AllCarried([], [])
  {
    assert Interpret(START, [""]) == Dispatch(START) + Interpret(START, []);
  }
}
