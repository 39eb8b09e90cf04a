/** Building the turns of a session from the events of a recorded trace: arrival offsets become
    waits before each turn, and a cap limits how many turns are kept. */
module TraceReplayBuild {
  import opened Basics
  import opened Sums

  /** A recorded event; `payload` stands for its messages and target length. */
  datatype TraceEvent = TraceEvent(offsetMs: int, payload: string)

  datatype ReplayTurn = ReplayTurn(turnIdx: nat, payload: string, waitBeforeS: real)

  function Offsets(events: seq<TraceEvent>, n: nat): seq<int>
    requires n <= |events|
  {
    if n == 0 then [] else Offsets(events, n - 1) + [events[n - 1].offsetMs]
  }

  lemma {:induction false} OffsetsAt(events: seq<TraceEvent>, n: nat)
    requires n <= |events|
    ensures |Offsets(events, n)| == n
    ensures forall i | 0 <= i < n :: Offsets(events, n)[i] == events[i].offsetMs
  {
    if n > 0 {
      OffsetsAt(events, n - 1);
    }
  }

  /** The wait before turn `i`, in milliseconds. */
  function WaitBefore(events: seq<TraceEvent>, i: nat, ignoreWaits: bool): int
    requires i < |events|
  {
    if ignoreWaits || i == 0 then 0 else Max(0, events[i].offsetMs - events[i - 1].offsetMs)
  }

  function Seconds(ms: int): real {
    ms as real / 1000.0
  }

  /** Turn `i` of an uncapped list. */
  function TurnOf(events: seq<TraceEvent>, i: nat, ignoreWaits: bool): ReplayTurn
    requires i < |events|
  {
    ReplayTurn(i, events[i].payload, Seconds(WaitBefore(events, i, ignoreWaits)))
  }

  /** How many turns survive the cap: at least one, even for a cap of zero. */
  function KeptTurns(total: nat, cap: Option<int>): (kept: nat)
    ensures kept <= total
  {
    if cap.None? || total <= Max(1, cap.value) then total else Max(1, cap.value)
  }

  /** The uncapped turn list is the pointwise image of the events; a cap keeps a prefix of it. */
  predicate IsBuilt(turns: seq<ReplayTurn>, events: seq<TraceEvent>, ignoreWaits: bool, cap: Option<int>) {
    && |turns| == KeptTurns(|events|, cap)
    && forall i | 0 <= i < |turns| :: turns[i] == TurnOf(events, i, ignoreWaits)
  }

  method BuildTurns(events: seq<TraceEvent>, ignoreWaits: bool, cap: Option<int>) returns (turns: seq<ReplayTurn>)
    ensures IsBuilt(turns, events, ignoreWaits, cap)
  {
    assert Seconds(0) == 0.0;
    hide Seconds;
    turns := [];
    var prior := 0;
    for index := 0 to |events|
      invariant |turns| == index
      invariant cap.Some? ==> index == 0 || index < cap.value
      invariant index > 0 ==> prior == events[index - 1].offsetMs
      invariant forall i | 0 <= i < index :: turns[i] == TurnOf(events, i, ignoreWaits)
    {
      var event := events[index];
      var wait := if index == 0 then 0 else Max(0, event.offsetMs - prior);
      prior := event.offsetMs;
      turns := turns + [ReplayTurn(index, event.payload, if ignoreWaits then 0.0 else Seconds(wait))];
      if cap.Some? && |turns| >= cap.value {
        return;
      }
    }
  }

  /** How long a replay of the first `n` turns waits. */
  function TotalWait(turns: seq<ReplayTurn>, n: nat): real
    requires n <= |turns|
  {
    if n == 0 then 0.0 else TotalWait(turns, n - 1) + turns[n - 1].waitBeforeS
  }

  lemma SecondsAdd(a: int, b: int)
    ensures Seconds(a) + Seconds(b) == Seconds(a + b)
    ensures Seconds(0) == 0.0
  {
  }

  lemma {:induction false} WaitsUpTo(turns: seq<ReplayTurn>, events: seq<TraceEvent>, ignoreWaits: bool, cap: Option<int>, n: nat)
    requires IsBuilt(turns, events, ignoreWaits, cap) && n <= |turns|
    ensures TotalWait(turns, n) == if ignoreWaits then 0.0 else Seconds(PositiveVariation(Offsets(events, n)))
  {
    hide Seconds, PositiveVariation;
    SecondsAdd(0, 0);
    if n == 0 {
      NoRises();
    } else {
      WaitsUpTo(turns, events, ignoreWaits, cap, n - 1);
      OffsetsAt(events, n - 1);
      PositiveVariationSnoc(Offsets(events, n - 1), events[n - 1].offsetMs);
      if n == 1 {
        NoRises();
      }
      SecondsAdd(PositiveVariation(Offsets(events, n - 1)), WaitBefore(events, n - 1, false));
    }
  }

  lemma NoRises()
    ensures PositiveVariation([]) == 0
  {
  }

  /** The waits of a session, capped or not, replay every rise of the offsets of its turns and
      nothing else; ignored waits come to nothing. */
  lemma WaitsAreRises(turns: seq<ReplayTurn>, events: seq<TraceEvent>, ignoreWaits: bool, cap: Option<int>)
    requires IsBuilt(turns, events, ignoreWaits, cap)
    ensures TotalWait(turns, |turns|)
         == if ignoreWaits then 0.0 else Seconds(PositiveVariation(Offsets(events, |turns|)))
    ensures !ignoreWaits ==> TotalWait(turns, |turns|) * 1000.0 == PositiveVariation(Offsets(events, |turns|)) as real
  {
    WaitsUpTo(turns, events, ignoreWaits, cap, |turns|);
    SecondsMeaning(PositiveVariation(Offsets(events, |turns|)));
    hide Seconds;
  }

  lemma SecondsMeaning(ms: int)
    ensures Seconds(ms) * 1000.0 == ms as real
  {
  }

  /** The rest of the list: as many turns as there are events, unless a cap of at least one stops
      it, each with the index and the payload of its event. */
  lemma TurnsOfEvents(turns: seq<ReplayTurn>, events: seq<TraceEvent>, ignoreWaits: bool, cap: Option<int>)
    requires IsBuilt(turns, events, ignoreWaits, cap)
    ensures |turns| <= |events| && (cap.None? ==> |turns| == |events|)
    ensures cap.Some? ==> |turns| <= Max(1, cap.value) && (|turns| < |events| ==> |turns| == Max(1, cap.value))
    ensures forall i | 0 <= i < |turns| :: turns[i].turnIdx == i && turns[i].payload == events[i].payload
  {
  }

  lemma SecondsOrder(a: int, b: int)
    ensures Seconds(a) >= Seconds(b) <==> a >= b
    ensures Seconds(a) == Seconds(b) <==> a == b
  {
  }

  lemma AscendingOffsets(events: seq<TraceEvent>, n: nat)
    requires n <= |events|
    ensures Ascending(Offsets(events, n)) <==> forall i, j | 0 <= i < j < n :: events[i].offsetMs <= events[j].offsetMs
  {
    OffsetsAt(events, n);
    hide Offsets;
  }

  lemma RisesOfEvents(events: seq<TraceEvent>, n: nat)
    requires 0 < n <= |events|
    ensures var span, rises := events[n - 1].offsetMs - events[0].offsetMs, PositiveVariation(Offsets(events, n));
      rises >= span && (rises == span <==> Ascending(Offsets(events, n)))
  {
    OffsetsAt(events, n);
    hide PositiveVariation, Offsets, Ascending;
    VariationBoundsChange(Offsets(events, n));
  }

  /** So a replay takes at least the recorded span of its turns, and exactly that when and only
      when their offsets never decrease. */
  lemma ReplaySpan(turns: seq<ReplayTurn>, events: seq<TraceEvent>, cap: Option<int>)
    requires IsBuilt(turns, events, false, cap) && turns != []
    ensures var span := Seconds(events[|turns| - 1].offsetMs - events[0].offsetMs);
      && TotalWait(turns, |turns|) >= span
      && (TotalWait(turns, |turns|) == span
          <==> forall i, j | 0 <= i < j < |turns| :: events[i].offsetMs <= events[j].offsetMs)
  {
    WaitsAreRises(turns, events, false, cap);
    hide *;
    AscendingOffsets(events, |turns|);
    RisesOfEvents(events, |turns|);
    SecondsOrder(PositiveVariation(Offsets(events, |turns|)), events[|turns| - 1].offsetMs - events[0].offsetMs);
  }
}
