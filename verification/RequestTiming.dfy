/** The latency accounting of one streamed request: time to first token, the latencies
    between tokens, the end-to-end latency and the time per output token. The clock is an
    arbitrary input: each event carries the reading the clock would give when it is handled. */
module RequestTiming {
  import opened Basics
  import opened Sums

  /** One decoded payload. `usage` matters only when the payload has no choices. */
  datatype StreamEvent = StreamEvent(hasChoices: bool, content: string, usage: Option<int>, at: real)

  datatype Response =
    | Refused(message: string)                                             // status other than 200
    | Streamed(events: seq<StreamEvent>, failure: Option<string>)          // may break off with an exception

  datatype TurnResult = TurnResult(
    turnIdx: int, contextLen: int, outputLen: int,
    ttft: real, tpot: real, e2el: real, itl: seq<real>,
    success: bool, error: string)

  predicate CarriesContent(e: StreamEvent) {
    e.hasChoices && e.content != ""
  }

  /** The clock readings taken while handling the first `n` events, in order. */
  function StampsUpTo(events: seq<StreamEvent>, n: nat): seq<real>
    requires n <= |events|
  {
    if n == 0 then [] else
    var before := StampsUpTo(events, n - 1);
    if CarriesContent(events[n - 1]) then before + [events[n - 1].at] else before
  }

  function TextUpTo(events: seq<StreamEvent>, n: nat): string
    requires n <= |events|
  {
    if n == 0 then "" else
    var before := TextUpTo(events, n - 1);
    if CarriesContent(events[n - 1]) then before + events[n - 1].content else before
  }

  /** The last completion-token count reported by the first `n` events, 0 when there is none. */
  function TokensUpTo(events: seq<StreamEvent>, n: nat): int
    requires n <= |events|
  {
    if n == 0 then 0 else
    var e := events[n - 1];
    if !e.hasChoices && e.usage.Some? then e.usage.value else TokensUpTo(events, n - 1)
  }

  function Stamps(events: seq<StreamEvent>): seq<real> { StampsUpTo(events, |events|) }
  function GeneratedText(events: seq<StreamEvent>): string { TextUpTo(events, |events|) }
  function ReportedTokens(events: seq<StreamEvent>): int { TokensUpTo(events, |events|) }

  /** Index of the first reading that differs from the start: a first token that arrives with
      no measurable delay does not fix the time to first token, a later one does. */
  function Departure(start: real, stamps: seq<real>): (d: nat)
    ensures d <= |stamps|
    ensures forall i | 0 <= i < d :: stamps[i] == start
    ensures d < |stamps| ==> stamps[d] != start
  {
    if stamps == [] || stamps[0] != start then 0 else 1 + Departure(start, stamps[1..])
  }

  function TimeToFirstToken(start: real, stamps: seq<real>): real {
    var d := Departure(start, stamps);
    if d < |stamps| then stamps[d] - start else 0.0
  }

  /** The gaps between the readings from the departure on. */
  function Latencies(start: real, stamps: seq<real>): seq<real> {
    Gaps(stamps[Departure(start, stamps)..])
  }

  function LastStamp(start: real, stamps: seq<real>): real {
    if stamps == [] then start else stamps[|stamps| - 1]
  }

  function EndToEnd(start: real, stamps: seq<real>): real {
    var elapsed := LastStamp(start, stamps) - start;
    if elapsed < 0.0 then 0.0 else elapsed
  }

  lemma DepartureSnoc(start: real, stamps: seq<real>, t: real)
    ensures Departure(start, stamps + [t]) ==
      if Departure(start, stamps) == |stamps| && t == start then |stamps| + 1 else Departure(start, stamps)
  {
    var more := stamps + [t];
    var d, e := Departure(start, stamps), Departure(start, more);
    assert forall i | 0 <= i < |stamps| :: more[i] == stamps[i];
    assert more[|stamps|] == t;
  }

  lemma TimingSnoc(start: real, stamps: seq<real>, t: real)
    ensures TimeToFirstToken(start, stamps + [t]) ==
      if TimeToFirstToken(start, stamps) == 0.0 then t - start else TimeToFirstToken(start, stamps)
    ensures Latencies(start, stamps + [t]) ==
      if TimeToFirstToken(start, stamps) == 0.0 then Latencies(start, stamps)
      else Latencies(start, stamps) + [t - LastStamp(start, stamps)]
    ensures LastStamp(start, stamps + [t]) == t
  {
    DepartureSnoc(start, stamps, t);
    var d := Departure(start, stamps);
    if d < |stamps| {
      assert (stamps + [t])[d..] == stamps[d..] + [t];
      GapsSnoc(stamps[d..], t);
    } else if t != start {
      assert (stamps + [t])[d..] == [t];
    }
  }

  /** The time per output token behind the first. */
  function TimePerToken(e2el: real, ttft: real, outputLen: int): real {
    if outputLen > 1 then (e2el - ttft) / (outputLen - 1) as real else 0.0
  }

  /** What the time per token means: as many times as there are tokens behind the first, it
      spreads what is left of the end-to-end latency behind the first. */
  lemma TokenTimesAddUp(e2el: real, ttft: real, outputLen: int)
    ensures outputLen > 1 ==> ttft + TimePerToken(e2el, ttft, outputLen) * (outputLen - 1) as real == e2el
    ensures outputLen <= 1 ==> TimePerToken(e2el, ttft, outputLen) == 0.0
  {
    if outputLen > 1 {
      DivideBack(e2el - ttft, (outputLen - 1) as real);
    }
  }

  /** Event by event: content in a choice takes a clock reading and adds its text; an empty delta
      does nothing; a count of tokens replaces the one before, but only outside of choices. */
  lemma EventByEvent(events: seq<StreamEvent>, e: StreamEvent)
    ensures Stamps([]) == [] && GeneratedText([]) == "" && ReportedTokens([]) == 0
    ensures e.hasChoices && e.content != "" ==>
      Stamps(events + [e]) == Stamps(events) + [e.at] && GeneratedText(events + [e]) == GeneratedText(events) + e.content
    ensures !e.hasChoices || e.content == "" ==>
      Stamps(events + [e]) == Stamps(events) && GeneratedText(events + [e]) == GeneratedText(events)
    ensures !e.hasChoices && e.usage.Some? ==> ReportedTokens(events + [e]) == e.usage.value
    ensures e.hasChoices || e.usage.None? ==> ReportedTokens(events + [e]) == ReportedTokens(events)
  {
    EventsPrefix(events, e, |events|);
  }

  lemma {:induction false} EventsPrefix(events: seq<StreamEvent>, e: StreamEvent, n: nat)
    requires n <= |events|
    ensures StampsUpTo(events + [e], n) == StampsUpTo(events, n)
    ensures TextUpTo(events + [e], n) == TextUpTo(events, n)
    ensures TokensUpTo(events + [e], n) == TokensUpTo(events, n)
  {
    if n > 0 {
      EventsPrefix(events, e, n - 1);
    }
  }

  /** What one more event changes. */
  lemma EventStep(events: seq<StreamEvent>, n: nat)
    requires n < |events|
    ensures var e := events[n];
      && StampsUpTo(events, n + 1) == (if CarriesContent(e) then StampsUpTo(events, n) + [e.at] else StampsUpTo(events, n))
      && TextUpTo(events, n + 1) == (if CarriesContent(e) then TextUpTo(events, n) + e.content else TextUpTo(events, n))
      && TokensUpTo(events, n + 1) == (if !e.hasChoices && e.usage.Some? then e.usage.value else TokensUpTo(events, n))
  {
  }

  lemma BeforeEvents(start: real, events: seq<StreamEvent>)
    ensures StampsUpTo(events, 0) == [] && TextUpTo(events, 0) == "" && TokensUpTo(events, 0) == 0
    ensures TimeToFirstToken(start, []) == 0.0 && Latencies(start, []) == [] && LastStamp(start, []) == start
  {
  }

  /** The loop over the events of a response. */
  method ConsumeEvents(start: real, events: seq<StreamEvent>)
    returns (ttft: real, itl: seq<real>, mostRecent: real, generated: string, outputLen: int)
    ensures ttft == TimeToFirstToken(start, Stamps(events))
    ensures itl == Latencies(start, Stamps(events))
    ensures mostRecent == LastStamp(start, Stamps(events))
    ensures generated == GeneratedText(events) && outputLen == ReportedTokens(events)
  {
    hide TimeToFirstToken, Latencies, LastStamp, StampsUpTo, TextUpTo, TokensUpTo;
    ttft, itl, mostRecent, generated, outputLen := 0.0, [], start, "", 0;
    BeforeEvents(start, events);
    for i := 0 to |events|
      invariant ttft == TimeToFirstToken(start, StampsUpTo(events, i))
      invariant itl == Latencies(start, StampsUpTo(events, i))
      invariant mostRecent == LastStamp(start, StampsUpTo(events, i))
      invariant generated == TextUpTo(events, i)
      invariant outputLen == TokensUpTo(events, i)
    {
      var e := events[i];
      EventStep(events, i);
      if e.hasChoices {
        if e.content != "" {
          TimingSnoc(start, StampsUpTo(events, i), e.at);
          if ttft == 0.0 {
            ttft := e.at - start;
          } else {
            itl := itl + [e.at - mostRecent];
          }
          mostRecent := e.at;
          generated := generated + e.content;
        }
      } else if e.usage.Some? {
        outputLen := e.usage.value;
      }
    }
  }

  predicate MonotoneClock(start: real, stamps: seq<real>) {
    && (forall i | 0 <= i < |stamps| :: start <= stamps[i])
    && forall i, j | 0 <= i < j < |stamps| :: stamps[i] <= stamps[j]
  }

  /** How the times of a turn add up: the first token and one time per token behind it make the
      end-to-end latency, and under a clock that never runs backwards those are the latencies. */
  ghost predicate AddsUp(turn: TurnResult, start: real, stamps: seq<real>) {
    && (turn.outputLen > 1 ==> turn.ttft + turn.tpot * (turn.outputLen - 1) as real == turn.e2el)
    && (turn.outputLen > 1 && MonotoneClock(start, stamps) ==> turn.tpot * (turn.outputLen - 1) as real == RealSum(turn.itl))
    && (turn.outputLen <= 1 ==> turn.tpot == 0.0)
  }

  lemma TurnAddsUp(turn: TurnResult, start: real, stamps: seq<real>)
    requires turn.ttft == TimeToFirstToken(start, stamps) && turn.itl == Latencies(start, stamps)
    requires turn.e2el == EndToEnd(start, stamps) && turn.tpot == TimePerToken(turn.e2el, turn.ttft, turn.outputLen)
    ensures AddsUp(turn, start, stamps)
  {
    TokenTimesAddUp(turn.e2el, turn.ttft, turn.outputLen);
    hide TimePerToken, TimeToFirstToken, Latencies, EndToEnd, MonotoneClock, RealSum;
    MonotoneSplit(start, stamps);
  }

  /** The accounting of one completion request. */
  method SendCompletionTurn(contextLen: int, start: real, response: Response, countTokens: string -> int)
    returns (turn: TurnResult)
    ensures turn.contextLen == contextLen && turn.turnIdx == -1
    ensures response.Refused? ==>
      turn == TurnResult(-1, contextLen, 0, 0.0, 0.0, 0.0, [], false, response.message)
    ensures response.Streamed? ==>
      && turn.ttft == TimeToFirstToken(start, Stamps(response.events))
      && turn.itl == Latencies(start, Stamps(response.events))
      && turn.success == response.failure.None?
      && turn.error == (if response.failure.Some? then response.failure.value else "")
    ensures response.Streamed? && response.failure.Some? ==>
      && turn.outputLen == ReportedTokens(response.events)
      && turn.e2el == turn.tpot == 0.0
    ensures turn.success ==>
      && turn.e2el == EndToEnd(start, Stamps(response.events))
      && turn.outputLen == (
        var reported, text := ReportedTokens(response.events), GeneratedText(response.events);
        if reported == 0 && text != "" then countTokens(text) else reported)
      && turn.tpot == TimePerToken(turn.e2el, turn.ttft, turn.outputLen)
    ensures turn.success ==> AddsUp(turn, start, Stamps(response.events))
    ensures !turn.success ==> turn.tpot == 0.0
  {
    if response.Refused? {
      return TurnResult(-1, contextLen, 0, 0.0, 0.0, 0.0, [], false, response.message);
    }
    hide TimeToFirstToken, Latencies, StampsUpTo, TextUpTo, TokensUpTo, TimePerToken;
    var ttft, itl, mostRecent, generated, outputLen := ConsumeEvents(start, response.events);
    if response.failure.Some? {
      return TurnResult(-1, contextLen, outputLen, ttft, 0.0, 0.0, itl, false, response.failure.value);
    }
    var e2el := if mostRecent - start < 0.0 then 0.0 else mostRecent - start;
    if outputLen == 0 && generated != "" {
      outputLen := countTokens(generated);
    }
    var tpot := TimePerToken(e2el, ttft, outputLen);
    hide LastStamp, AddsUp;
    TurnAddsUp(TurnResult(-1, contextLen, outputLen, ttft, tpot, e2el, itl, true, ""), start, Stamps(response.events));
    turn := TurnResult(-1, contextLen, outputLen, ttft, tpot, e2el, itl, true, "");
  }

  /** Whatever the clock does, the first delay and the latencies telescope to the last reading. */
  lemma LatenciesTelescope(start: real, stamps: seq<real>)
    ensures TimeToFirstToken(start, stamps) + RealSum(Latencies(start, stamps)) == LastStamp(start, stamps) - start
  {
    var d := Departure(start, stamps);
    if d < |stamps| {
      GapsTelescope(stamps[d..]);
    }
  }

  /** The split of the end-to-end latency is exact when, and only when, the last reading is
      not before the start; otherwise the clamp at zero breaks it. */
  lemma LatencySplitExact(start: real, stamps: seq<real>)
    ensures TimeToFirstToken(start, stamps) + RealSum(Latencies(start, stamps)) == EndToEnd(start, stamps)
       <==> LastStamp(start, stamps) >= start
    ensures LastStamp(start, stamps) < start ==> EndToEnd(start, stamps) == 0.0
  {
    LatenciesTelescope(start, stamps);
  }

  /** The first delay is that of the first reading that differs from the start. */
  lemma FirstDelay(start: real, stamps: seq<real>, d: nat)
    requires d <= |stamps| && (forall i | 0 <= i < d :: stamps[i] == start) && (d < |stamps| ==> stamps[d] != start)
    ensures TimeToFirstToken(start, stamps) == if d < |stamps| then stamps[d] - start else 0.0
  {
    assert Departure(start, stamps) == d;
  }

  lemma MonotoneSplit(start: real, stamps: seq<real>)
    ensures MonotoneClock(start, stamps) ==>
      TimeToFirstToken(start, stamps) + RealSum(Latencies(start, stamps)) == EndToEnd(start, stamps)
  {
    LatencySplitExact(start, stamps);
  }

  /** Under a clock that never runs backwards every entry is non-negative, the parts add up to
      the end-to-end latency, and the time per output token spreads the latencies evenly. */
  lemma MonotoneTiming(start: real, stamps: seq<real>, outputLen: int)
    requires MonotoneClock(start, stamps)
    ensures var ttft, itl, e2el := TimeToFirstToken(start, stamps), Latencies(start, stamps), EndToEnd(start, stamps);
      && ttft >= 0.0 && (forall i | 0 <= i < |itl| :: itl[i] >= 0.0)
      && ttft + RealSum(itl) == e2el
      && (outputLen > 1 ==> TimePerToken(e2el, ttft, outputLen) * (outputLen - 1) as real == RealSum(itl))
  {
    var ttft, itl, e2el := TimeToFirstToken(start, stamps), Latencies(start, stamps), EndToEnd(start, stamps);
    LatenciesNonNegative(start, stamps);
    MonotoneSplit(start, stamps);
    FirstDelayNonNegative(start, stamps);
    hide TimeToFirstToken, Latencies, EndToEnd, RealSum, TimePerToken;
    TokenTimesAddUp(e2el, ttft, outputLen);
  }

  lemma FirstDelayNonNegative(start: real, stamps: seq<real>)
    requires MonotoneClock(start, stamps)
    ensures TimeToFirstToken(start, stamps) >= 0.0
  {
  }

  lemma LatenciesNonNegative(start: real, stamps: seq<real>)
    requires MonotoneClock(start, stamps)
    ensures var itl := Latencies(start, stamps);
      forall i | 0 <= i < |itl| :: itl[i] >= 0.0
  {
    var d := Departure(start, stamps);
    var late := stamps[d..];
    GapsAt(late);
    forall i | 0 <= i < |Gaps(late)|
      ensures Gaps(late)[i] >= 0.0
    {
      assert late[i] == stamps[d + i] && late[i + 1] == stamps[d + i + 1];
    }
  }
}
