/** The line splitter of the streaming providers: chunks in, trimmed non-empty lines out. */
module StreamLines {
  import opened JsText
  import opened Options

  function Concat(chunks: seq<Text>): Text {
    if chunks == [] then [] else chunks[0] + Concat(chunks[1..])
  }

  /** The batch form: keep the pieces that are non-empty after trimming. */
  function Kept(pieces: seq<Text>): seq<Text> {
    if pieces == [] then []
    else (if Trim(pieces[0]) == [] then [] else [Trim(pieces[0])]) + Kept(pieces[1..])
  }

  function Lines(text: Text): seq<Text> {
    Kept(Split(text, NEWLINE))
  }

  lemma LinesStep(head: Text, tail: Text)
    requires NEWLINE !in head
    ensures Lines(head + [NEWLINE] + tail) == Kept([head]) + Lines(tail)
    ensures Lines(head) == Kept([head])
  {
    SplitHead(head, NEWLINE, tail);
    var rest := Split(tail, NEWLINE);
    assert ([head] + rest)[1..] == rest;
  }

  lemma LineTaken(lines: seq<Text>, buffer: Text, idx: nat, tail: Text)
    requires idx < |buffer| && buffer[idx] == NEWLINE && NEWLINE !in buffer[..idx]
    ensures var line := Trim(buffer[..idx]);
      lines + Lines(buffer + tail) == (if line != [] then lines + [line] else lines) + Lines(buffer[idx + 1..] + tail)
  {
    var head, rest := buffer[..idx], buffer[idx + 1..];
    LinesStep(head, rest + tail);
    assert buffer + tail == head + [NEWLINE] + (rest + tail);
    var kept: seq<Text> := if Trim(head) == [] then [] else [Trim(head)];
    assert Kept([]) == [] && kept + [] == kept;
    var pieces := [head];
    assert Kept(pieces) == kept + Kept(pieces[1..]);
    assert lines + (kept + Lines(rest + tail)) == (lines + kept) + Lines(rest + tail);
    assert lines + [] == lines;
  }

  /**
   The inner loop: take the complete lines off the buffer and leave the unfinished one.
   Whatever text is still to come, nothing of it changes the lines taken.
   */
  method TakeLines(text: Text, ghost tail: Text) returns (lines: seq<Text>, buffer: Text)
    ensures NEWLINE !in buffer
    ensures lines + Lines(buffer + tail) == Lines(text + tail)
  {
    buffer, lines := text, [];
    var idx := IndexOf(buffer, NEWLINE);
    while idx >= 0
      invariant idx == IndexOf(buffer, NEWLINE)
      invariant lines + Lines(buffer + tail) == Lines(text + tail)
      decreases |buffer|
    {
      LineTaken(lines, buffer, idx, tail);
      var line := Trim(buffer[..idx]);
      buffer := buffer[idx + 1..];
      if line != [] {
        lines := lines + [line];
      }
      idx := IndexOf(buffer, NEWLINE);
    }
  }

  /**
   The generator, with the lines it yields collected in order. However the text is cut
   into chunks, the lines are those of the whole text.
   */
  method Stream(body: Option<seq<Text>>) returns (lines: seq<Text>)
    ensures body.None? ==> lines == []
    ensures body.Some? ==> lines == Kept(Split(Concat(body.value), 0x0A))
  {
    if body.None? {
      return [];
    }
    var chunks := body.value;
    var buffer: Text := [];
    lines := [];
    assert chunks[0..] == chunks && buffer + Concat(chunks) == Concat(chunks);
    for c := 0 to |chunks|
      invariant NEWLINE !in buffer
      invariant lines + Lines(buffer + Concat(chunks[c..])) == Lines(Concat(chunks))
    {
      ghost var tail := Concat(chunks[c + 1..]);
      assert buffer + Concat(chunks[c..]) == (buffer + chunks[c]) + tail;
      buffer := buffer + chunks[c];
      var taken;
      taken, buffer := TakeLines(buffer, tail);
      assert lines + (taken + Lines(buffer + tail)) == (lines + taken) + Lines(buffer + tail);
      lines := lines + taken;
    }
    assert buffer + Concat(chunks[|chunks|..]) == buffer;
    LinesStep(buffer, []);
    var remainder := Trim(buffer);
    if remainder != [] {
      lines := lines + [remainder];
    }
  }
}
