/** Newline framing of control requests over reads of arbitrary size. */
module LineFraming {

  const MAX_LINE_BUFFER: nat := 65536
  const NEWLINE: char := '\n'

  // ---- What a text means, character by character ----

  /** The unfinished line at the end of a text. */
  function Leftover(text: string): (r: string)
    ensures NEWLINE !in r
  {
    if text == "" then ""
    else
      var n := |text| - 1;
      if text[n] == NEWLINE then "" else Leftover(text[..n]) + [text[n]]
  }

  /** The finished, non-empty lines of a text. */
  function Lines(text: string): seq<string> {
    if text == "" then []
    else
      var n := |text| - 1;
      if text[n] == NEWLINE && Leftover(text[..n]) != "" then Lines(text[..n]) + [Leftover(text[..n])]
      else Lines(text[..n])
  }

  lemma Snoc(text: string, c: char)
    ensures Leftover(text + [c]) == if c == NEWLINE then "" else Leftover(text) + [c]
    ensures Lines(text + [c]) ==
            if c == NEWLINE && Leftover(text) != "" then Lines(text) + [Leftover(text)] else Lines(text)
  {
    assert (text + [c])[..|text|] == text;
  }

  /** Only the unfinished line of the first part matters for what follows. */
  lemma {:induction false} SplitConcat(a: string, b: string)
    ensures Leftover(a + b) == Leftover(Leftover(a) + b)
    ensures Lines(a + b) == Lines(a) + Lines(Leftover(a) + b)
  {
    if b == "" {
      assert a + b == a && Leftover(a) + b == Leftover(a);
      UnfinishedLine("", Leftover(a));
      assert "" + Leftover(a) == Leftover(a);
    } else {
      var n := |b| - 1;
      SplitConcat(a, b[..n]);
      assert a + b == (a + b[..n]) + [b[n]];
      assert Leftover(a) + b == (Leftover(a) + b[..n]) + [b[n]];
      Snoc(a + b[..n], b[n]);
      Snoc(Leftover(a) + b[..n], b[n]);
    }
  }

  lemma {:induction false} UnfinishedLine(text: string, line: string)
    requires NEWLINE !in line
    ensures Leftover(text + line) == Leftover(text) + line && Lines(text + line) == Lines(text)
  {
    if line == "" {
      assert text + line == text;
    } else {
      var n := |line| - 1;
      UnfinishedLine(text, line[..n]);
      assert text + line == (text + line[..n]) + [line[n]];
      assert line[n] in line;
      Snoc(text + line[..n], line[n]);
    }
  }

  /** Texts as they are sent: every piece followed by a line break. */
  function Terminated(pieces: seq<string>): string {
    if pieces == [] then ""
    else Terminated(pieces[..|pieces| - 1]) + pieces[|pieces| - 1] + [NEWLINE]
  }

  function NonEmpty(pieces: seq<string>): seq<string> {
    if pieces == [] then []
    else
      var n := |pieces| - 1;
      NonEmpty(pieces[..n]) + if pieces[n] != "" then [pieces[n]] else []
  }

  /** The pieces that are sent come out again as the lines, in order, without the
      empty ones; what follows the last line break is the unfinished line. */
  lemma {:induction false} TerminatedReadsBack(pieces: seq<string>, rest: string)
    requires NEWLINE !in rest && forall l :: l in pieces ==> NEWLINE !in l
    ensures Lines(Terminated(pieces) + rest) == NonEmpty(pieces)
    ensures Leftover(Terminated(pieces) + rest) == rest
  {
    UnfinishedLine(Terminated(pieces), rest);
    if pieces != [] {
      var n := |pieces| - 1;
      var front, line := Terminated(pieces[..n]), pieces[n];
      TerminatedReadsBack(pieces[..n], line);
      Snoc(front + line, NEWLINE);
      UnfinishedLine(front, line);
    }
  }

  // ---- One connection ----

  ghost predicate StopsIn(lines: seq<string>, isShutdown: string -> bool) {
    exists l :: l in lines && isShutdown(l)
  }

  /** The lines up to and including the first shutdown request. */
  ghost function Served(lines: seq<string>, isShutdown: string -> bool): seq<string> {
    if lines == [] then []
    else if StopsIn(lines[..|lines| - 1], isShutdown) then Served(lines[..|lines| - 1], isShutdown)
    else lines
  }

  lemma {:induction false} ServedWithoutStop(lines: seq<string>, isShutdown: string -> bool)
    requires !StopsIn(lines, isShutdown)
    ensures Served(lines, isShutdown) == lines
  {
    if lines != [] {
      assert forall l :: l in lines[..|lines| - 1] ==> l in lines;
    }
  }

  /** What comes after the first shutdown request does not matter. */
  lemma {:induction false} ServedPrefix(lines: seq<string>, more: seq<string>, isShutdown: string -> bool)
    requires StopsIn(lines, isShutdown)
    ensures Served(lines + more, isShutdown) == Served(lines, isShutdown)
    ensures StopsIn(lines + more, isShutdown)
  {
    if more == [] {
      assert lines + more == lines;
    } else {
      var n := |more| - 1;
      assert (lines + more)[..|lines + more| - 1] == lines + more[..n];
      ServedPrefix(lines, more[..n], isShutdown);
      assert forall l :: l in lines + more[..n] ==> l in lines + more;
    }
  }

  lemma StopIsLast(lines: seq<string>, line: string, more: seq<string>, isShutdown: string -> bool)
    requires !StopsIn(lines, isShutdown) && isShutdown(line)
    ensures Served(lines + [line] + more, isShutdown) == lines + [line]
    ensures StopsIn(lines + [line] + more, isShutdown)
  {
    var first := lines + [line];
    assert first[..|first| - 1] == lines && line in first;
    ServedPrefix(first, more, isShutdown);
  }

  lemma {:induction false} ServedAfter(before: seq<string>, lines: seq<string>, isShutdown: string -> bool)
    requires !StopsIn(before, isShutdown)
    ensures Served(before + lines, isShutdown) == before + Served(lines, isShutdown)
    ensures StopsIn(before + lines, isShutdown) <==> StopsIn(lines, isShutdown)
  {
    if lines == [] {
      assert before + lines == before;
      ServedWithoutStop(before, isShutdown);
    } else {
      var n := |lines| - 1;
      assert (before + lines)[..|before + lines| - 1] == before + lines[..n];
      ServedAfter(before, lines[..n], isShutdown);
      assert lines == lines[..n] + [lines[n]];
    }
  }

  class Connection {
    const isShutdown: string -> bool
    var lineBuffer: string
    var dispatched: seq<string>
    var running: bool

    constructor (isShutdown: string -> bool)
      ensures this.isShutdown == isShutdown
      ensures lineBuffer == "" && dispatched == [] && running
    {
      this.isShutdown := isShutdown;
      lineBuffer, dispatched, running := "", [], true;
    }

    ghost function State(): Framing
      reads this
    {
      Framing(lineBuffer, dispatched, running)
    }

    /** Handles one successful read. */
    method OnRead(chunk: string)
      requires running
      modifies this
      ensures Follows(State(), AfterRead(old(State()), chunk, isShutdown))
    {
      lineBuffer := lineBuffer + chunk;
      DispatchLines();
      if |lineBuffer| > MAX_LINE_BUFFER {
        lineBuffer := "";
      }
    }

    method DispatchLines()
      requires running
      modifies this
      ensures dispatched == old(dispatched) + Served(Lines(old(lineBuffer)), isShutdown)
      ensures running <==> !StopsIn(Lines(old(lineBuffer)), isShutdown)
      ensures running ==> lineBuffer == Leftover(old(lineBuffer))
    {
      ghost var text, done, sent := lineBuffer, "", [];
      assert text == done + lineBuffer;
      while running && NEWLINE in lineBuffer
        invariant Dispatching(text, done, lineBuffer, sent, running, isShutdown)
        invariant dispatched == old(dispatched) + sent
        decreases running, |lineBuffer|
      {
        var pos := FirstBreak(lineBuffer);
        var line := lineBuffer[..pos];
        DispatchStep(text, done, lineBuffer, sent, pos, isShutdown);
        lineBuffer := lineBuffer[pos + 1..];
        done := done + line + [NEWLINE];
        if line != "" {
          dispatched, sent := dispatched + [line], sent + [line];
          running := !isShutdown(line);
        }
      }
      if running {
        UnfinishedLine(done, lineBuffer);
        ServedWithoutStop(Lines(text), isShutdown);
        assert "" + lineBuffer == lineBuffer;
      }
    }
  }

  /** While `text` is dispatched: `done` is consumed, `buffer` is left, `sent`
      are the lines so far. */
  ghost predicate Dispatching(text: string, done: string, buffer: string, sent: seq<string>, running: bool,
                              isShutdown: string -> bool) {
    if running then
      text == done + buffer && Leftover(done) == "" && sent == Lines(done) && !StopsIn(sent, isShutdown)
    else StopsIn(Lines(text), isShutdown) && sent == Served(Lines(text), isShutdown)
  }

  lemma CutLine(text: string, done: string, buffer: string, pos: nat)
    requires text == done + buffer && pos < |buffer| && buffer[pos] == NEWLINE
    ensures text == (done + buffer[..pos] + [NEWLINE]) + buffer[pos + 1..]
    ensures "" + buffer[pos + 1..] == buffer[pos + 1..]
  {
    assert buffer == buffer[..pos] + [NEWLINE] + buffer[pos + 1..];
  }

  lemma DispatchStep(text: string, done: string, buffer: string, sent: seq<string>, pos: nat,
                     isShutdown: string -> bool)
    requires Dispatching(text, done, buffer, sent, true, isShutdown)
    requires pos < |buffer| && buffer[pos] == NEWLINE && NEWLINE !in buffer[..pos]
    ensures var line := buffer[..pos];
            Dispatching(text, done + line + [NEWLINE], buffer[pos + 1..],
                        if line == "" then sent else sent + [line],
                        line == "" || !isShutdown(line), isShutdown)
  {
    var line, rest := buffer[..pos], buffer[pos + 1..];
    var more := done + line + [NEWLINE];
    LineDone(done, buffer, pos);
    CutLine(text, done, buffer, pos);
    SplitConcat(more, rest);
    if line != "" && isShutdown(line) {
      StopIsLast(sent, line, Lines(rest), isShutdown);
    }
  }

  method FirstBreak(text: string) returns (pos: nat)
    requires NEWLINE in text
    ensures pos < |text| && text[pos] == NEWLINE && NEWLINE !in text[..pos]
  {
    pos := 0;
    while text[pos] != NEWLINE
      invariant pos < |text| && NEWLINE !in text[..pos]
      decreases |text| - pos
    {
      assert text[..pos + 1] == text[..pos] + [text[pos]];
      assert text == text[..pos + 1] + text[pos + 1..];
      pos := pos + 1;
    }
  }

  lemma LineDone(done: string, buffer: string, pos: nat)
    requires pos < |buffer| && buffer[pos] == NEWLINE && NEWLINE !in buffer[..pos] && Leftover(done) == ""
    ensures var line := buffer[..pos];
            var more := done + line + [NEWLINE];
            Leftover(more) == "" && Lines(more) == if line == "" then Lines(done) else Lines(done) + [line]
  {
    var line := buffer[..pos];
    UnfinishedLine(done, line);
    assert "" + line == line;
    Snoc(done + line, NEWLINE);
  }

  // ---- Whole conversations ----

  datatype Framing = Framing(buffer: string, dispatched: seq<string>, running: bool)

  /** The buffer of a connection that has shut down is never looked at again. */
  predicate Follows(actual: Framing, spec: Framing) {
    && actual.dispatched == spec.dispatched && actual.running == spec.running
    && (actual.running ==> actual.buffer == spec.buffer)
  }

  ghost function AfterRead(f: Framing, chunk: string, isShutdown: string -> bool): Framing {
    var text := f.buffer + chunk;
    var rest := Leftover(text);
    if !f.running then f
    else Framing(if |rest| > MAX_LINE_BUFFER then "" else rest,
                 f.dispatched + Served(Lines(text), isShutdown),
                 !StopsIn(Lines(text), isShutdown))
  }

  ghost function AfterReads(chunks: seq<string>, isShutdown: string -> bool): Framing {
    if chunks == [] then Framing("", [], true)
    else AfterRead(AfterReads(chunks[..|chunks| - 1], isShutdown), chunks[|chunks| - 1], isShutdown)
  }

  function Concat(chunks: seq<string>): string {
    if chunks == [] then "" else Concat(chunks[..|chunks| - 1]) + chunks[|chunks| - 1]
  }

  /** The unfinished line after the first `i` reads is not too long. */
  predicate BoundedAt(chunks: seq<string>, i: nat)
    requires i <= |chunks|
  {
    |Leftover(Concat(chunks[..i]))| <= MAX_LINE_BUFFER
  }

  /** No read ends inside a line that is already too long. */
  ghost predicate BoundedLines(chunks: seq<string>) {
    forall i :: 0 <= i <= |chunks| ==> BoundedAt(chunks, i)
  }

  lemma BoundedLast(chunks: seq<string>)
    requires chunks != []
    ensures BoundedLines(chunks) <==>
            BoundedLines(chunks[..|chunks| - 1]) && |Leftover(Concat(chunks))| <= MAX_LINE_BUFFER
  {
    var front := chunks[..|chunks| - 1];
    assert chunks[..|chunks|] == chunks;
    assert BoundedAt(chunks, |chunks|) <==> |Leftover(Concat(chunks))| <= MAX_LINE_BUFFER;
    forall i | 0 <= i <= |front| ensures BoundedAt(front, i) <==> BoundedAt(chunks, i) {
      assert front[..i] == chunks[..i];
    }
  }

  /** The same for the reads before the first shutdown request. */
  ghost predicate BoundedUntilStop(chunks: seq<string>, isShutdown: string -> bool) {
    forall i :: 0 <= i <= |chunks| && !StopsIn(Lines(Concat(chunks[..i])), isShutdown) ==> BoundedAt(chunks, i)
  }

  lemma BoundedUntilStopLast(chunks: seq<string>, isShutdown: string -> bool)
    requires chunks != [] && BoundedUntilStop(chunks, isShutdown)
    ensures BoundedUntilStop(chunks[..|chunks| - 1], isShutdown)
    ensures StopsIn(Lines(Concat(chunks)), isShutdown) || |Leftover(Concat(chunks))| <= MAX_LINE_BUFFER
  {
    assert chunks[..|chunks|] == chunks;
    assert BoundedAt(chunks, |chunks|) || StopsIn(Lines(Concat(chunks)), isShutdown);
    BoundedUntilStopPrefix(chunks, |chunks| - 1, isShutdown);
  }

  /** The requests served, and the rest kept, depend only on the bytes and not
      on how reads split them, as long as no unfinished line is too long;
      after the first shutdown request nothing matters. */
  lemma {:induction false} FramingIndependence(chunks: seq<string>, isShutdown: string -> bool)
    requires BoundedUntilStop(chunks, isShutdown)
    ensures var f, text := AfterReads(chunks, isShutdown), Concat(chunks);
            && f.dispatched == Served(Lines(text), isShutdown)
            && (f.running <==> !StopsIn(Lines(text), isShutdown))
            && (f.running ==> f.buffer == Leftover(text))
  {
    if chunks != [] {
      var n := |chunks| - 1;
      var before, text := AfterReads(chunks[..n], isShutdown), Concat(chunks[..n]);
      BoundedUntilStopLast(chunks, isShutdown);
      FramingIndependence(chunks[..n], isShutdown);
      SplitConcat(text, chunks[n]);
      var more := Lines(Leftover(text) + chunks[n]);
      if before.running {
        ServedWithoutStop(Lines(text), isShutdown);
        ServedAfter(Lines(text), more, isShutdown);
      } else {
        ServedPrefix(Lines(text), more, isShutdown);
      }
    }
  }

  // ---- The bound is exact ----

  function TotalLength(lines: seq<string>): nat {
    if lines == [] then 0 else TotalLength(lines[..|lines| - 1]) + |lines[|lines| - 1]|
  }

  lemma {:induction false} TotalLengthAppend(a: seq<string>, b: seq<string>)
    ensures TotalLength(a + b) == TotalLength(a) + TotalLength(b)
  {
    if b == [] {
      assert a + b == a;
    } else {
      TotalLengthAppend(a, b[..|b| - 1]);
      assert (a + b)[..|a + b| - 1] == a + b[..|b| - 1];
    }
  }

  /** Characters that belong to some line. */
  function Payload(text: string): nat {
    TotalLength(Lines(text)) + |Leftover(text)|
  }

  lemma {:induction false} PayloadAdds(a: string, b: string)
    ensures Payload(a + b) == Payload(a) + Payload(b)
  {
    if b == "" {
      assert a + b == a;
    } else {
      var n := |b| - 1;
      PayloadAdds(a, b[..n]);
      assert a + b == (a + b[..n]) + [b[n]];
      assert b == b[..n] + [b[n]];
      PayloadSnoc(a + b[..n], b[n]);
      PayloadSnoc(b[..n], b[n]);
    }
  }

  lemma PayloadSnoc(text: string, c: char)
    ensures Payload(text + [c]) == Payload(text) + if c == NEWLINE then 0 else 1
  {
    Snoc(text, c);
    TotalLengthAppend(Lines(text), [Leftover(text)]);
  }

  /** A running connection has dispatched or kept everything, unless it cleared
      a line that was too long. */
  lemma {:induction false} NothingLostIff(chunks: seq<string>, isShutdown: string -> bool)
    requires AfterReads(chunks, isShutdown).running
    ensures var f := AfterReads(chunks, isShutdown);
            && !StopsIn(f.dispatched, isShutdown)
            && TotalLength(f.dispatched) + |f.buffer| <= Payload(Concat(chunks))
            && (TotalLength(f.dispatched) + |f.buffer| == Payload(Concat(chunks)) <==> BoundedLines(chunks))
  {
    if chunks == [] {
      assert BoundedLines(chunks);
    } else {
      var n := |chunks| - 1;
      var before, f := AfterReads(chunks[..n], isShutdown), AfterReads(chunks, isShutdown);
      NothingLostIff(chunks[..n], isShutdown);
      var text := before.buffer + chunks[n];
      ServedWithoutStop(Lines(text), isShutdown);
      TotalLengthAppend(before.dispatched, Lines(text));
      PayloadAdds(before.buffer, chunks[n]);
      PayloadAdds(Concat(chunks[..n]), chunks[n]);
      BufferPayload(chunks[..n], isShutdown);
      if BoundedLines(chunks[..n]) {
        FramingIndependence(chunks[..n], isShutdown);
        SplitConcat(Concat(chunks[..n]), chunks[n]);
      }
      BoundedLast(chunks);
    }
  }

  lemma BufferPayload(chunks: seq<string>, isShutdown: string -> bool)
    requires AfterReads(chunks, isShutdown).running
    ensures Payload(AfterReads(chunks, isShutdown).buffer) == |AfterReads(chunks, isShutdown).buffer|
  {
    var b := AfterReads(chunks, isShutdown).buffer;
    assert NEWLINE !in b;
    UnfinishedLine("", b);
    assert "" + b == b;
  }

  /** The connection ends up with exactly the lines and the rest of the bytes it
      was sent if and only if no read ended inside a line that was too long, and
      no line was a shutdown. */
  lemma FramingExactIff(chunks: seq<string>, isShutdown: string -> bool)
    ensures AfterReads(chunks, isShutdown) == Framing(Leftover(Concat(chunks)), Lines(Concat(chunks)), true) <==>
            BoundedLines(chunks) && !StopsIn(Lines(Concat(chunks)), isShutdown)
  {
    if BoundedLines(chunks) {
      FramingIndependence(chunks, isShutdown);
      if !StopsIn(Lines(Concat(chunks)), isShutdown) {
        ServedWithoutStop(Lines(Concat(chunks)), isShutdown);
      }
    }
    if AfterReads(chunks, isShutdown).running {
      NothingLostIff(chunks, isShutdown);
    }
  }

  /** The connection is where the bytes it was sent say it should be. */
  ghost predicate AsPredicted(f: Framing, text: string, isShutdown: string -> bool) {
    && f.dispatched == Served(Lines(text), isShutdown)
    && (f.running <==> !StopsIn(Lines(text), isShutdown))
    && (f.running ==> f.buffer == Leftover(text))
  }

  ghost predicate AsPredictedAt(chunks: seq<string>, i: nat, isShutdown: string -> bool)
    requires i <= |chunks|
  {
    AsPredicted(AfterReads(chunks[..i], isShutdown), Concat(chunks[..i]), isShutdown)
  }

  lemma BoundedUntilStopPrefix(chunks: seq<string>, k: nat, isShutdown: string -> bool)
    requires k <= |chunks| && BoundedUntilStop(chunks, isShutdown)
    ensures BoundedUntilStop(chunks[..k], isShutdown)
  {
    forall i | 0 <= i <= k && !StopsIn(Lines(Concat(chunks[..k][..i])), isShutdown) ensures BoundedAt(chunks[..k], i) {
      assert chunks[..k][..i] == chunks[..i];
      assert BoundedAt(chunks, i);
    }
  }

  lemma {:induction false} BufferIsBounded(chunks: seq<string>, isShutdown: string -> bool)
    ensures |AfterReads(chunks, isShutdown).buffer| <= 65536
  {
    if chunks != [] {
      BufferIsBounded(chunks[..|chunks| - 1], isShutdown);
    }
  }

  /** With shutdowns: after every read the connection is where the bytes say it
      should be if and only if no read before the first shutdown ended inside a
      line that was too long. */
  lemma FramingExactAtEveryReadIff(chunks: seq<string>, isShutdown: string -> bool)
    ensures (forall i :: 0 <= i <= |chunks| ==> AsPredictedAt(chunks, i, isShutdown)) <==>
            BoundedUntilStop(chunks, isShutdown)
  {
    if BoundedUntilStop(chunks, isShutdown) {
      forall i | 0 <= i <= |chunks| ensures AsPredictedAt(chunks, i, isShutdown) {
        BoundedUntilStopPrefix(chunks, i, isShutdown);
        FramingIndependence(chunks[..i], isShutdown);
      }
    }
    if forall i :: 0 <= i <= |chunks| ==> AsPredictedAt(chunks, i, isShutdown) {
      forall i | 0 <= i <= |chunks| && !StopsIn(Lines(Concat(chunks[..i])), isShutdown) ensures BoundedAt(chunks, i) {
        assert AsPredictedAt(chunks, i, isShutdown);
        BufferIsBounded(chunks[..i], isShutdown);
      }
    }
  }

  lemma WholeLine(line: string)
    requires NEWLINE !in line && line != ""
    ensures Lines(line) == [] && Leftover(line) == line
    ensures Lines(line + [NEWLINE]) == [line] && Leftover(line + [NEWLINE]) == ""
  {
    UnfinishedLine("", line);
    assert "" + line == line;
    Snoc(line, NEWLINE);
  }

  lemma LineTwice(line: string)
    requires NEWLINE !in line && line != ""
    ensures Lines((line + [NEWLINE]) + (line + [NEWLINE])) == [line] + [line]
  {
    WholeLine(line);
    SplitConcat(line + [NEWLINE], line + [NEWLINE]);
    assert "" + (line + [NEWLINE]) == line + [NEWLINE];
  }

  lemma ServedOnce(line: string, isShutdown: string -> bool)
    requires isShutdown(line)
    ensures Served([line], isShutdown) == [line] && StopsIn([line], isShutdown)
    ensures Served([line] + [line], isShutdown) == [line] && StopsIn([line] + [line], isShutdown)
  {
    StopIsLast([], line, [], isShutdown);
    assert [] + [line] + [] == [line] == [] + [line];
    ServedPrefix([line], [line], isShutdown);
  }

  lemma ReadsStep(chunks: seq<string>, chunk: string, isShutdown: string -> bool)
    ensures AfterReads(chunks + [chunk], isShutdown) == AfterRead(AfterReads(chunks, isShutdown), chunk, isShutdown)
    ensures Concat(chunks + [chunk]) == Concat(chunks) + chunk
  {
    assert (chunks + [chunk])[..|chunks|] == chunks;
  }

  lemma ReadOnEmpty(chunk: string, isShutdown: string -> bool)
    ensures var f := AfterRead(Framing("", [], true), chunk, isShutdown);
            && f.dispatched == Served(Lines(chunk), isShutdown)
            && (f.running <==> !StopsIn(Lines(chunk), isShutdown))
            && f.buffer == if |Leftover(chunk)| > MAX_LINE_BUFFER then "" else Leftover(chunk)
  {
    assert "" + chunk == chunk;
  }

  lemma FirstReadCleared(line: string, isShutdown: string -> bool)
    requires |line| > MAX_LINE_BUFFER && NEWLINE !in line
    ensures AfterReads([line], isShutdown) == Framing("", [], true) && Concat([line]) == line
  {
    WholeLine(line);
    ReadOnEmpty(line, isShutdown);
    ReadsStep([], line, isShutdown);
    assert "" + line == line && [] + [line] == [line];
  }

  lemma SecondReadEmpty(isShutdown: string -> bool)
    ensures AfterRead(Framing("", [], true), [NEWLINE], isShutdown) == Framing("", [], true)
  {
    Snoc("", NEWLINE);
    assert "" + [NEWLINE] == [NEWLINE];
    ReadOnEmpty([NEWLINE], isShutdown);
  }

  lemma ThirdReadStops(line: string, whole: string, isShutdown: string -> bool)
    requires NEWLINE !in line && line != "" && isShutdown(line) && whole == line + [NEWLINE]
    ensures var f := AfterRead(Framing("", [], true), whole, isShutdown); f.dispatched == [line] && !f.running
  {
    WholeLine(line);
    ServedOnce(line, isShutdown);
    ReadOnEmpty(whole, isShutdown);
  }

  lemma ClearedThenServed(line: string, whole: string, isShutdown: string -> bool)
    requires |line| > MAX_LINE_BUFFER && NEWLINE !in line && isShutdown(line) && whole == line + [NEWLINE]
    ensures var f := AfterReads([line] + [[NEWLINE]] + [whole], isShutdown); f.dispatched == [line] && !f.running
    ensures Concat([line] + [[NEWLINE]] + [whole]) == whole + whole
  {
    FirstReadCleared(line, isShutdown);
    ReadsStep([line], [NEWLINE], isShutdown);
    SecondReadEmpty(isShutdown);
    ReadsStep([line] + [[NEWLINE]], whole, isShutdown);
    ThirdReadStops(line, whole, isShutdown);
  }

  lemma ConcatOne(chunks: seq<string>)
    requires chunks != []
    ensures Concat(chunks[..1]) == chunks[0]
  {
    assert chunks[..1][..0] == [];
    assert "" + chunks[0] == chunks[0];
  }

  lemma FirstReadUnbounded(chunks: seq<string>, isShutdown: string -> bool)
    requires chunks != [] && |chunks[0]| > MAX_LINE_BUFFER && NEWLINE !in chunks[0]
    ensures !BoundedUntilStop(chunks, isShutdown)
  {
    WholeLine(chunks[0]);
    ConcatOne(chunks);
    assert !BoundedAt(chunks, 1);
  }

  /** At the end alone the bytes do not tell: an over-long line that is cleared
      and then sent again, as a shutdown, leaves the very result predicted. */
  lemma ClearedLineCanGoUnnoticed(line: string, whole: string, isShutdown: string -> bool)
    requires |line| > MAX_LINE_BUFFER && NEWLINE !in line && isShutdown(line) && whole == line + [NEWLINE]
    ensures var chunks := [line] + [[NEWLINE]] + [whole];
            && AsPredicted(AfterReads(chunks, isShutdown), Concat(chunks), isShutdown)
            && !BoundedUntilStop(chunks, isShutdown)
  {
    ClearedThenServed(line, whole, isShutdown);
    LineTwice(line);
    ServedOnce(line, isShutdown);
    FirstReadUnbounded([line] + [[NEWLINE]] + [whole], isShutdown);
  }
}
