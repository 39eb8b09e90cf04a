/** The server-sent-event splitter of the replay harness: a buffer of bytes that grows by
    network chunks and shrinks by complete lines. Bytes are decoded by an arbitrary decoder
    and trimmed with an arbitrary notion of white space, so every result holds for UTF-8. */
module SseStream {
  import opened Basics

  /** What `bytes.decode` and `str.strip` do; decoding may fail. */
  datatype Codec = Codec(decode: seq<byte> -> Option<string>, isSpace: char -> bool)

  datatype Ending =
    | Exhausted      // the response ended
    | Terminated     // a [DONE] payload was read
    | DecodeFailed   // a line could not be decoded and the iterator raised

  datatype Stream = Stream(payloads: seq<string>, ending: Ending)

  datatype Verdict = Ignored | Payload(text: string) | Done | Undecodable

  const LINE_FEED: byte := 10
  const DONE_MARK: string := "[DONE]"

  predicate IsAsciiSpace(b: byte) {
    b == 32 || 9 <= b <= 13
  }

  function ReadField(codec: Codec, decoded: string): (payload: Option<string>) {
    if StartsWith(decoded, "data: ") then Some(Strip(codec.isSpace, decoded[6..]))
    else if StartsWith(decoded, "data:") then Some(Strip(codec.isSpace, decoded[5..]))
    else None
  }

  /** The verdict on one line of the stream, its LF removed. */
  function ClassifyLine(codec: Codec, raw: seq<byte>): Verdict {
    var line := Strip(IsAsciiSpace, raw);
    if line == [] then Ignored else
    match codec.decode(line)
    case None => Undecodable
    case Some(decoded) =>
      if StartsWith(decoded, ":") then Ignored else
      match ReadField(codec, decoded)
      case None => Ignored
      case Some(payload) => if payload == DONE_MARK then Done else Payload(payload)
  }

  /** What the bytes left after the last LF yield once the response has ended. */
  function Flush(codec: Codec, tail: seq<byte>): Stream {
    var remaining := Strip(IsAsciiSpace, tail);
    if remaining == [] then Stream([], Exhausted) else
    match codec.decode(remaining)
    case None => Stream([], DecodeFailed)
    case Some(decoded) =>
      match ReadField(codec, decoded)
      case None => Stream([], Exhausted)
      case Some(payload) =>
        if payload != "" && payload != DONE_MARK then Stream([payload], Exhausted)
        else Stream([], Exhausted)
  }

  /** Position of the first LF from `i` on, or the length when there is none. */
  function FindLineFeedFrom(s: seq<byte>, i: nat): (k: nat)
    requires i <= |s|
    ensures i <= k <= |s|
    ensures k < |s| ==> s[k] == LINE_FEED
    ensures forall j | i <= j < k :: s[j] != LINE_FEED
    decreases |s| - i
  {
    if i < |s| && s[i] != LINE_FEED then FindLineFeedFrom(s, i + 1) else i
  }

  function FindLineFeed(s: seq<byte>): (k: nat)
    ensures k <= |s|
    ensures k < |s| ==> s[k] == LINE_FEED
    ensures LINE_FEED !in s[..k]
  {
    FindLineFeedFrom(s, 0)
  }

  function Emit(payloads: seq<string>, rest: Stream): Stream {
    Stream(payloads + rest.payloads, rest.ending)
  }

  // ---- One-shot reading: cut the whole stream at its LFs, then read line by line ----

  function Lines(s: seq<byte>): seq<seq<byte>>
    decreases |s|
  {
    var k := FindLineFeed(s);
    if k == |s| then [] else [s[..k]] + Lines(s[k + 1..])
  }

  function Tail(s: seq<byte>): seq<byte>
    decreases |s|
  {
    var k := FindLineFeed(s);
    if k == |s| then s else Tail(s[k + 1..])
  }

  /** The effect of one classified line in front of what the later lines give. */
  function Apply(v: Verdict, rest: Stream): Stream {
    match v
    case Ignored => rest
    case Payload(text) => Emit([text], rest)
    case Done => Stream([], Terminated)
    case Undecodable => Stream([], DecodeFailed)
  }

  function Run(verdicts: seq<Verdict>, flushed: Stream): Stream {
    if verdicts == [] then flushed else Apply(verdicts[0], Run(verdicts[1..], flushed))
  }

  function Verdicts(codec: Codec, lines: seq<seq<byte>>): seq<Verdict> {
    if lines == [] then [] else [ClassifyLine(codec, lines[0])] + Verdicts(codec, lines[1..])
  }

  function Interpret(codec: Codec, s: seq<byte>): Stream {
    Run(Verdicts(codec, Lines(s)), Flush(codec, Tail(s)))
  }

  function Flatten(chunks: seq<seq<byte>>): seq<byte> {
    if chunks == [] then [] else chunks[0] + Flatten(chunks[1..])
  }

  lemma CutFirstLine(line: seq<byte>, rest: seq<byte>)
    requires LINE_FEED !in line
    ensures Lines(line + [LINE_FEED] + rest) == [line] + Lines(rest)
    ensures Tail(line + [LINE_FEED] + rest) == Tail(rest)
  {
    var s := line + [LINE_FEED] + rest;
    assert s[|line|] == LINE_FEED;
    assert FindLineFeed(s) == |line|;
    assert s[..|line|] == line && s[|line| + 1..] == rest;
  }

  lemma InterpretStep(codec: Codec, line: seq<byte>, rest: seq<byte>)
    requires LINE_FEED !in line
    ensures Interpret(codec, line + [LINE_FEED] + rest) == Apply(ClassifyLine(codec, line), Interpret(codec, rest))
  {
    CutFirstLine(line, rest);
  }

  /** The inner loop's step, with the bytes still to come behind the buffer. */
  lemma ConsumeLine(codec: Codec, buffer: seq<byte>, later: seq<byte>)
    requires FindLineFeed(buffer) < |buffer|
    ensures var k := FindLineFeed(buffer);
      Interpret(codec, buffer + later)
        == Apply(ClassifyLine(codec, buffer[..k]), Interpret(codec, buffer[k + 1..] + later))
  {
    var k := FindLineFeed(buffer);
    assert buffer + later == buffer[..k] + [LINE_FEED] + (buffer[k + 1..] + later);
    InterpretStep(codec, buffer[..k], buffer[k + 1..] + later);
  }

  lemma EmitApply(payloads: seq<string>, v: Verdict, rest: Stream)
    ensures Emit(payloads, Apply(v, rest)) ==
      match v
      case Ignored => Emit(payloads, rest)
      case Payload(text) => Emit(payloads + [text], rest)
      case Done => Stream(payloads, Terminated)
      case Undecodable => Stream(payloads, DecodeFailed)
  {
    if v.Payload? {
      assert payloads + ([v.text] + rest.payloads) == (payloads + [v.text]) + rest.payloads;
    }
  }

  lemma InterpretTail(codec: Codec, tail: seq<byte>)
    requires LINE_FEED !in tail
    ensures Interpret(codec, tail) == Flush(codec, tail)
  {
  }

  lemma FlattenStep(buffer: seq<byte>, chunks: seq<seq<byte>>, i: nat)
    requires i < |chunks|
    ensures buffer + Flatten(chunks[i..]) == (buffer + chunks[i]) + Flatten(chunks[i + 1..])
  {
    assert chunks[i..][1..] == chunks[i + 1..];
  }

  /** The iterator. However the response is cut into chunks, it yields what one reading of
      the whole byte stream yields: two cuts of one stream cannot be told apart. */
  method IterSseLines(codec: Codec, chunks: seq<seq<byte>>) returns (payloads: seq<string>, ending: Ending)
    ensures Stream(payloads, ending) == Interpret(codec, Flatten(chunks))
  {
    payloads := [];
    var buffer: seq<byte> := [];
    ghost var whole := Interpret(codec, Flatten(chunks));
    assert [] + Flatten(chunks) == Flatten(chunks);
    for i := 0 to |chunks|
      invariant LINE_FEED !in buffer
      invariant Emit(payloads, Interpret(codec, buffer + Flatten(chunks[i..]))) == whole
    {
      ghost var later := Flatten(chunks[i + 1..]);
      FlattenStep(buffer, chunks, i);
      buffer := buffer + chunks[i];
      while LINE_FEED in buffer
        invariant Emit(payloads, Interpret(codec, buffer + later)) == whole
        decreases |buffer|
      {
        var k := FindLineFeed(buffer);
        var verdict := ClassifyLine(codec, buffer[..k]);
        ConsumeLine(codec, buffer, later);
        EmitApply(payloads, verdict, Interpret(codec, buffer[k + 1..] + later));
        buffer := buffer[k + 1..];
        match verdict {
          case Ignored =>
          case Payload(text) => payloads := payloads + [text];
          case Done => return payloads, Terminated;
          case Undecodable => return payloads, DecodeFailed;
        }
      }
    }
    assert buffer + Flatten(chunks[|chunks|..]) == buffer;
    InterpretTail(codec, buffer);
    var flushed := Flush(codec, buffer);
    payloads := payloads + flushed.payloads;
    ending := flushed.ending;
  }

  function Unlines(lines: seq<seq<byte>>): seq<byte> {
    if lines == [] then [] else lines[0] + [LINE_FEED] + Unlines(lines[1..])
  }

  ghost predicate IsCut(s: seq<byte>, lines: seq<seq<byte>>, tail: seq<byte>) {
    && s == Unlines(lines) + tail
    && LINE_FEED !in tail
    && forall l | l in lines :: LINE_FEED !in l
  }

  /** `Lines` and `Tail` are the one and only way to cut a stream at its LFs. */
  lemma SplitIsUnique(s: seq<byte>, lines: seq<seq<byte>>, tail: seq<byte>)
    ensures IsCut(s, lines, tail) <==> lines == Lines(s) && tail == Tail(s)
  {
    SplitIsCut(s);
    if IsCut(s, lines, tail) {
      CutIsSplit(lines, tail);
    }
  }

  lemma {:induction false} SplitIsCut(s: seq<byte>)
    ensures IsCut(s, Lines(s), Tail(s))
    decreases |s|
  {
    var k := FindLineFeed(s);
    if k < |s| {
      var line, rest := s[..k], s[k + 1..];
      assert s == line + [LINE_FEED] + rest;
      SplitIsCut(rest);
      assert Lines(s) == [line] + Lines(rest);
      assert Lines(s)[1..] == Lines(rest);
    }
  }

  lemma {:induction false} CutIsSplit(lines: seq<seq<byte>>, tail: seq<byte>)
    requires LINE_FEED !in tail && forall l | l in lines :: LINE_FEED !in l
    ensures Lines(Unlines(lines) + tail) == lines && Tail(Unlines(lines) + tail) == tail
  {
    if lines == [] {
      assert Unlines(lines) + tail == tail;
    } else {
      var rest := Unlines(lines[1..]) + tail;
      assert Unlines(lines) + tail == lines[0] + [LINE_FEED] + rest;
      CutFirstLine(lines[0], rest);
      CutIsSplit(lines[1..], tail);
    }
  }

  predicate Stops(v: Verdict) {
    v.Done? || v.Undecodable?
  }

  function Payloads(verdicts: seq<Verdict>): seq<string> {
    if verdicts == [] then [] else
    (if verdicts[0].Payload? then [verdicts[0].text] else []) + Payloads(verdicts[1..])
  }

  lemma PayloadsStep(v: Verdict, rest: seq<Verdict>)
    ensures Payloads([v] + rest) == (if v.Payload? then [v.text] else []) + Payloads(rest)
  {
    assert ([v] + rest)[1..] == rest;
  }

  /** A run yields the payloads of the lines before the first one that stops it, and the
      unterminated tail counts only when no line does. */
  lemma {:induction false} RunToFirstStop(verdicts: seq<Verdict>, flushed: Stream, stop: nat)
    requires stop <= |verdicts| && (stop < |verdicts| ==> Stops(verdicts[stop]))
    requires forall i | 0 <= i < stop :: !Stops(verdicts[i])
    ensures Run(verdicts, flushed) == Emit(Payloads(verdicts[..stop]),
      if stop == |verdicts| then flushed
      else Stream([], if verdicts[stop].Done? then Terminated else DecodeFailed))
  {
    if stop > 0 {
      var rest := verdicts[1..];
      RunToFirstStop(rest, flushed, stop - 1);
      PayloadsStep(verdicts[0], rest[..stop - 1]);
      assert verdicts[..stop] == [verdicts[0]] + rest[..stop - 1];
    }
  }

  /** What reading on yields after `here`. */
  function Then(here: Stream, later: Stream): Stream {
    if here.ending == Exhausted then Emit(here.payloads, later) else here
  }

  lemma ApplyThen(v: Verdict, here: Stream, later: Stream)
    ensures Apply(v, Then(here, later)) == Then(Apply(v, here), later)
  {
    if v.Payload? {
      assert [v.text] + (here.payloads + later.payloads) == ([v.text] + here.payloads) + later.payloads;
    }
  }

  /** A stream cut at a line boundary is read piece by piece; once an end mark was read (or
      decoding failed), later bytes are irrelevant. */
  lemma {:induction false} InterpretAppend(codec: Codec, s: seq<byte>, more: seq<byte>)
    requires Tail(s) == []
    ensures Interpret(codec, s + more) == Then(Interpret(codec, s), Interpret(codec, more))
    decreases |s|
  {
    var k := FindLineFeed(s);
    if k == |s| {
      InterpretTail(codec, []);
      assert s == [] && s + more == more;
    } else {
      var line, rest := s[..k], s[k + 1..];
      assert s + more == line + [LINE_FEED] + (rest + more) && s == line + [LINE_FEED] + rest;
      InterpretStep(codec, line, rest + more);
      InterpretStep(codec, line, rest);
      InterpretAppend(codec, rest, more);
      ApplyThen(ClassifyLine(codec, line), Interpret(codec, rest), Interpret(codec, more));
    }
  }

  // ---- What one line says ----

  lemma {:induction false} TrimFront(space: char -> bool, c: char, text: string)
    requires space(c)
    ensures Strip(space, [c] + text) == Strip(space, text)
  {
    var before, behind := StripIsTrim(space, text);
    assert [c] + text == ([c] + before) + Strip(space, text) + behind;
    TrimIsUnique(space, [c] + text, [c] + before, Strip(space, text), behind);
  }

  lemma FieldOf(codec: Codec, text: string, p: string)
    requires text == "data:" + p && codec.isSpace(' ')
    ensures ReadField(codec, text) == Some(Strip(codec.isSpace, p)) && !StartsWith(text, ":")
  {
    hide Strip;
    assert text[0] == 'd' && text[..5] == "data:" && text[5..] == p;
    if StartsWith(text, "data: ") {
      assert text[5] == ' ' && p == [' '] + text[6..];
      TrimFront(codec.isSpace, ' ', text[6..]);
    }
  }

  lemma NoField(codec: Codec, text: string)
    requires !("data:" <= text)
    ensures ReadField(codec, text) == None
  {
    assert "data:" == "data: "[..5];
    assert |text| >= 6 ==> text[..5] == text[..6][..5];
  }

  /** A `data:` line, with or without a space behind the colon: its payload is what follows,
      trimmed. With its LF the payload is read in front of the rest, or ends the reading; at the
      end of the response it counts as well, unless it is empty or the end mark. */
  lemma DataLine(codec: Codec, line: seq<byte>, p: string, rest: seq<byte>)
    requires 10 !in line && codec.isSpace(' ') && Strip(IsAsciiSpace, line) != []
    requires codec.decode(Strip(IsAsciiSpace, line)) == Some("data:" + p)
    ensures var payload, later := Strip(codec.isSpace, p), Interpret(codec, rest);
      Interpret(codec, line + [10] + rest)
        == if payload == "[DONE]" then Stream([], Terminated) else Stream([payload] + later.payloads, later.ending)
    ensures var payload := Strip(codec.isSpace, p);
      Interpret(codec, line) == Stream(if payload == "" || payload == "[DONE]" then [] else [payload], Exhausted)
  {
    hide Strip, IsAsciiSpace, StartsWith;
    FieldOf(codec, "data:" + p, p);
    InterpretStep(codec, line, rest);
    InterpretTail(codec, line);
  }

  /** Any other line changes nothing, whether it is a comment, another field or blank. */
  lemma OtherLine(codec: Codec, line: seq<byte>, text: string, rest: seq<byte>)
    requires LINE_FEED !in line
    requires Strip(IsAsciiSpace, line) == []
          || (codec.decode(Strip(IsAsciiSpace, line)) == Some(text) && !("data:" <= text))
    ensures Interpret(codec, line + [LINE_FEED] + rest) == Interpret(codec, rest)
    ensures Interpret(codec, line) == Stream([], Exhausted)
  {
    hide Strip, IsAsciiSpace, StartsWith, ReadField;
    if Strip(IsAsciiSpace, line) != [] {
      NoField(codec, text);
    }
    InterpretStep(codec, line, rest);
    InterpretTail(codec, line);
  }

  /** A line that cannot be decoded makes the iterator raise. */
  lemma UndecodableLine(codec: Codec, line: seq<byte>, rest: seq<byte>)
    requires LINE_FEED !in line && Strip(IsAsciiSpace, line) != [] && codec.decode(Strip(IsAsciiSpace, line)) == None
    ensures Interpret(codec, line + [LINE_FEED] + rest) == Interpret(codec, line) == Stream([], DecodeFailed)
  {
    InterpretStep(codec, line, rest);
    InterpretTail(codec, line);
  }

  /** The ASCII white space that is trimmed off a line, and nothing else. */
  lemma TrimmedBytes(b: byte)
    ensures Strip(IsAsciiSpace, [b]) == [] <==> b in [9, 10, 11, 12, 13, 32]
  {
    if IsAsciiSpace(b) {
      TrimIsUnique(IsAsciiSpace, [b], [b], [], []);
    } else {
      StripFixpoint(IsAsciiSpace, [b]);
    }
  }

  // ---- What a server sends comes back ----

  /** A payload as a server frames it, with or without a space behind the colon. */
  datatype Sent = Sent(payload: string, spaced: bool)

  function Prefix(f: Sent): string {
    if f.spaced then "data: " else "data:"
  }

  function Frame(encode: string -> seq<byte>, f: Sent): seq<byte> {
    encode(Prefix(f) + f.payload) + [LINE_FEED]
  }

  function Frames(encode: string -> seq<byte>, sent: seq<Sent>): seq<byte> {
    if sent == [] then [] else Frame(encode, sent[0]) + Frames(encode, sent[1..])
  }

  function PayloadsOf(sent: seq<Sent>): seq<string> {
    if sent == [] then [] else [sent[0].payload] + PayloadsOf(sent[1..])
  }

  /** The text a framed payload decodes to once its line is trimmed: the space of the prefix
      goes when nothing follows it. */
  function Trimmed(f: Sent): string {
    if f.payload == "" then "data:" else Prefix(f) + f.payload
  }

  /** A payload the framing can carry: its line, trimmed, decodes back, holds no LF, and the
      payload has no white space at either end. */
  predicate Sendable(codec: Codec, encode: string -> seq<byte>, f: Sent) {
    var line, p := encode(Prefix(f) + f.payload), f.payload;
    && LINE_FEED !in line && Strip(IsAsciiSpace, line) != []
    && codec.decode(Strip(IsAsciiSpace, line)) == Some(Trimmed(f))
    && codec.isSpace(' ') && (p == "" || (!codec.isSpace(p[0]) && !codec.isSpace(p[|p| - 1])))
  }

  /** The empty payload can be sent in every encoding that writes ASCII as itself. */
  lemma EmptyIsSendable(codec: Codec, encode: string -> seq<byte>, spaced: bool)
    requires encode("data: " + "") == [100, 97, 116, 97, 58, 32] && encode("data:" + "") == [100, 97, 116, 97, 58]
    requires codec.decode([100, 97, 116, 97, 58]) == Some("data:") && codec.isSpace(' ')
    ensures Sendable(codec, encode, Sent("", spaced))
  {
    var bare: seq<byte> := [100, 97, 116, 97, 58];
    var line := encode(Prefix(Sent("", spaced)) + "");
    assert spaced ==> line == [] + bare + [32];
    assert !spaced ==> line == [] + bare + [];
    assert AllSpace(IsAsciiSpace, [32]) && AllSpace(IsAsciiSpace, []);
    TrimIsUnique(IsAsciiSpace, line, [], bare, if spaced then [32] else []);
  }

  /** The text of a frame is `data:` and a text that trims to the payload. */
  lemma FrameText(codec: Codec, f: Sent) returns (p: string)
    requires var p := f.payload; codec.isSpace(' ') && (p == "" || (!codec.isSpace(p[0]) && !codec.isSpace(p[|p| - 1])))
    ensures Trimmed(f) == "data:" + p && Strip(codec.isSpace, p) == f.payload
  {
    StripFixpoint(codec.isSpace, f.payload);
    p := f.payload;
    if f.spaced && f.payload != "" {
      p := [' '] + f.payload;
      TrimFront(codec.isSpace, ' ', f.payload);
      assert "data: " == "data:" + [' '];
      assert "data: " + f.payload == "data:" + p;
    }
  }

  lemma FrameIsOneLine(codec: Codec, encode: string -> seq<byte>, f: Sent, rest: seq<byte>)
    requires Sendable(codec, encode, f)
    ensures Interpret(codec, Frame(encode, f) + rest) ==
      if f.payload == DONE_MARK then Stream([], Terminated) else Emit([f.payload], Interpret(codec, rest))
  {
    var p := FrameText(codec, f);
    hide Strip, Interpret;
    DataLine(codec, encode(Prefix(f) + f.payload), p, rest);
  }

  /** Framed payloads, in either form, come back in order in front of whatever follows them. */
  lemma {:induction false} FramesThen(codec: Codec, encode: string -> seq<byte>, sent: seq<Sent>, more: seq<byte>)
    requires forall f | f in sent :: Sendable(codec, encode, f) && f.payload != DONE_MARK
    ensures Interpret(codec, Frames(encode, sent) + more) == Emit(PayloadsOf(sent), Interpret(codec, more))
  {
    hide Interpret, Sendable, Frame;
    if sent == [] {
      assert Frames(encode, sent) + more == more;
    } else {
      var rest := Frames(encode, sent[1..]) + more;
      assert Frames(encode, sent) + more == Frame(encode, sent[0]) + rest;
      FrameIsOneLine(codec, encode, sent[0], rest);
      FramesThen(codec, encode, sent[1..], more);
      EmitCons(sent[0].payload, PayloadsOf(sent[1..]), Interpret(codec, more));
    }
  }

  lemma EmitCons(payload: string, payloads: seq<string>, rest: Stream)
    ensures Emit([payload], Emit(payloads, rest)) == Emit([payload] + payloads, rest)
  {
    assert [payload] + (payloads + rest.payloads) == [payload] + payloads + rest.payloads;
  }

  /** Round trip: every framed payload up to the end mark comes back, in order, and nothing
      that follows the end mark does. */
  lemma FramesRoundTrip(codec: Codec, encode: string -> seq<byte>, sent: seq<Sent>, spaced: bool, junk: seq<byte>)
    requires forall f | f in sent :: Sendable(codec, encode, f) && f.payload != DONE_MARK
    requires Sendable(codec, encode, Sent(DONE_MARK, spaced))
    ensures Interpret(codec, Frames(encode, sent) + (Frame(encode, Sent(DONE_MARK, spaced)) + junk))
         == Stream(PayloadsOf(sent), Terminated)
  {
    hide Interpret, Sendable;
    FramesThen(codec, encode, sent, Frame(encode, Sent(DONE_MARK, spaced)) + junk);
    FrameIsOneLine(codec, encode, Sent(DONE_MARK, spaced), junk);
  }

  /** A last frame whose LF never arrived is still delivered, unless it is empty or the end
      mark. With its LF an empty payload is delivered as well (`FramesThen`). */
  lemma UnterminatedFrame(codec: Codec, encode: string -> seq<byte>, sent: seq<Sent>, last: Sent)
    requires forall f | f in sent :: Sendable(codec, encode, f) && f.payload != DONE_MARK
    requires Sendable(codec, encode, last)
    ensures Interpret(codec, Frames(encode, sent) + encode(Prefix(last) + last.payload))
         == Stream(if last.payload in {"", DONE_MARK} then PayloadsOf(sent) else PayloadsOf(sent) + [last.payload], Exhausted)
  {
    var tail := encode(Prefix(last) + last.payload);
    var p := FrameText(codec, last);
    hide Interpret, Strip;
    DataLine(codec, tail, p, []);
    hide Sendable;
    FramesThen(codec, encode, sent, tail);
  }

  /** The line feed decides whether an empty last payload is delivered. */
  lemma EmptyPayloadNeedsItsLineFeed(codec: Codec, encode: string -> seq<byte>, sent: seq<Sent>, last: Sent)
    requires forall f | f in sent :: Sendable(codec, encode, f) && f.payload != DONE_MARK
    requires Sendable(codec, encode, last) && last.payload == ""
    ensures Interpret(codec, Frames(encode, sent) + Frame(encode, last)) == Stream(PayloadsOf(sent) + [""], Exhausted)
    ensures Interpret(codec, Frames(encode, sent) + encode(Prefix(last) + "")) == Stream(PayloadsOf(sent), Exhausted)
  {
    InterpretTail(codec, []);
    hide Interpret, Sendable, Frame;
    FramesThen(codec, encode, sent, Frame(encode, last));
    FrameIsOneLine(codec, encode, last, []);
    assert Frame(encode, last) + [] == Frame(encode, last);
    UnterminatedFrame(codec, encode, sent, last);
  }
}
