/** LMCache trace files: records behind 4-byte big-endian length prefixes, and exactly what
    the decoder makes of any bytes. Unpacking one record is an arbitrary partial function. */
module TraceFraming {
  import opened Basics

  datatype FramingError = TruncatedLengthPrefix | InvalidRecordLength | TruncatedRecord | UnpackFailed

  datatype Decoded<+R> = Records(records: seq<R>) | Broken(error: FramingError)

  const PREFIX: nat := 4
  const LIMIT: nat := 0x1_0000_0000

  function BigEndian(b0: int, b1: int, b2: int, b3: int): int {
    ((b0 * 0x100 + b1) * 0x100 + b2) * 0x100 + b3
  }

  /** The unsigned big-endian number in the four bytes from `offset` on. */
  function ReadLength(data: seq<byte>, offset: nat): (length: nat)
    requires offset + PREFIX <= |data|
    ensures length < LIMIT
  {
    BigEndian(data[offset], data[offset + 1], data[offset + 2], data[offset + 3])
  }

  function LengthBytes(length: nat): (bytes: seq<byte>)
    requires length < LIMIT
    ensures |bytes| == PREFIX
  {
    [length / 0x100_0000, length / 0x1_0000 % 0x100, length / 0x100 % 0x100, length % 0x100]
  }

  lemma LengthRoundTrip(length: nat)
    requires length < LIMIT
    ensures ReadLength(LengthBytes(length), 0) == length
  {
    var a, b, c := length / 0x100, length / 0x1_0000, length / 0x100_0000;
    assert a / 0x100 == b && b / 0x100 == c;
    assert length == a * 0x100 + length % 0x100;
    assert a == b * 0x100 + a % 0x100;
    assert b == c * 0x100 + b % 0x100;
  }

  lemma DivideOnce(q: nat, r: nat)
    requires r < 0x100
    ensures (q * 0x100 + r) / 0x100 == q && (q * 0x100 + r) % 0x100 == r
  {
  }

  lemma DivideAgain(n: nat)
    ensures n / 0x1_0000 == n / 0x100 / 0x100 && n / 0x100_0000 == n / 0x100 / 0x100 / 0x100
  {
  }

  lemma BytesOfNumber(n: nat, b0: byte, b1: byte, b2: byte, b3: byte)
    requires n == BigEndian(b0, b1, b2, b3)
    ensures n < LIMIT && LengthBytes(n) == [b0, b1, b2, b3]
  {
    DivideAgain(n);
    DivideOnce((b0 * 0x100 + b1) * 0x100 + b2, b3);
    DivideOnce(b0 * 0x100 + b1, b2);
    DivideOnce(b0, b1);
  }

  /** Four bytes are the prefix of exactly one length. */
  lemma PrefixRoundTrip(data: seq<byte>, offset: nat)
    requires offset + PREFIX <= |data|
    ensures LengthBytes(ReadLength(data, offset)) == data[offset..offset + PREFIX]
  {
    BytesOfNumber(ReadLength(data, offset), data[offset], data[offset + 1], data[offset + 2], data[offset + 3]);
  }

  /** The records from `offset` on, at most `cap` of them. */
  function DecodeFrom<R>(unpack: seq<byte> -> Option<R>, data: seq<byte>, offset: nat, cap: nat): Decoded<R>
    decreases cap
  {
    if offset >= |data| || cap == 0 then Records([])
    else if offset + PREFIX > |data| then Broken(TruncatedLengthPrefix)
    else
      var length := ReadLength(data, offset);
      var start := offset + PREFIX;
      if length == 0 then Broken(InvalidRecordLength)
      else if start + length > |data| then Broken(TruncatedRecord)
      else Prepend(unpack(data[start..start + length]), DecodeFrom(unpack, data, start + length, cap - 1))
  }

  function Prepend<R>(record: Option<R>, rest: Decoded<R>): Decoded<R> {
    match record
    case None => Broken(UnpackFailed)
    case Some(r) => if rest.Records? then Records([r] + rest.records) else rest
  }

  /** The loop over the offset. */
  method IterRecords<R>(unpack: seq<byte> -> Option<R>, data: seq<byte>, maxRecords: nat) returns (decoded: Decoded<R>)
    ensures decoded == DecodeFrom(unpack, data, 0, maxRecords)
  {
    hide ReadLength;
    var offset := 0;
    var records: seq<R> := [];
    while offset < |data| && |records| < maxRecords
      invariant |records| <= maxRecords
      invariant DecodeFrom(unpack, data, 0, maxRecords) == Continue(records, DecodeFrom(unpack, data, offset, maxRecords - |records|))
      decreases maxRecords - |records|
    {
      if offset + PREFIX > |data| {
        return Broken(TruncatedLengthPrefix);
      }
      var length := ReadLength(data, offset);
      offset := offset + PREFIX;
      if length <= 0 {
        return Broken(InvalidRecordLength);
      }
      if offset + length > |data| {
        return Broken(TruncatedRecord);
      }
      var record := unpack(data[offset..offset + length]);
      if record.None? {
        return Broken(UnpackFailed);
      }
      ContinueStep(records, record.value, DecodeFrom(unpack, data, offset + length, maxRecords - |records| - 1));
      records := records + [record.value];
      offset := offset + length;
    }
    return Records(records);
  }

  /** Records already read, followed by what reading on gives. */
  function Continue<R>(records: seq<R>, rest: Decoded<R>): Decoded<R> {
    if rest.Records? then Records(records + rest.records) else rest
  }

  lemma ContinueStep<R>(records: seq<R>, r: R, rest: Decoded<R>)
    ensures Continue(records, Prepend(Some(r), rest)) == Continue(records + [r], rest)
  {
    if rest.Records? {
      assert records + ([r] + rest.records) == (records + [r]) + rest.records;
    }
  }

  // ---- The encoder ----

  ghost predicate Frameable(payload: seq<byte>) {
    0 < |payload| < LIMIT
  }

  function Frame(payload: seq<byte>): (bytes: seq<byte>)
    requires Frameable(payload)
    ensures |bytes| == PREFIX + |payload|
  {
    LengthBytes(|payload|) + payload
  }

  /** The payloads from index `n` on, framed, and then `tail`. */
  function EncodeFrom(payloads: seq<seq<byte>>, n: nat, tail: seq<byte>): seq<byte>
    requires n <= |payloads| && forall p | p in payloads :: Frameable(p)
    decreases |payloads| - n
  {
    if n == |payloads| then tail else Frame(payloads[n]) + EncodeFrom(payloads, n + 1, tail)
  }

  function Encode(payloads: seq<seq<byte>>): seq<byte>
    requires forall p | p in payloads :: Frameable(p)
  {
    EncodeFrom(payloads, 0, [])
  }

  // ---- Decoding a framed text ----

  /** `bytes` stand in `data` from `offset` on. */
  ghost predicate At(data: seq<byte>, offset: nat, bytes: seq<byte>) {
    offset + |bytes| <= |data| && forall k | 0 <= k < |bytes| :: data[offset + k] == bytes[k]
  }

  lemma AtParts(data: seq<byte>, offset: nat, a: seq<byte>, b: seq<byte>)
    requires At(data, offset, a + b)
    ensures At(data, offset, a) && At(data, offset + |a|, b)
  {
    forall k | 0 <= k < |a|
      ensures data[offset + k] == a[k]
    {
      assert (a + b)[k] == a[k];
    }
    forall k | 0 <= k < |b|
      ensures data[offset + |a| + k] == b[k]
    {
      assert (a + b)[|a| + k] == b[k];
    }
  }

  lemma LengthAt(data: seq<byte>, offset: nat, length: nat)
    requires length < LIMIT && At(data, offset, LengthBytes(length))
    ensures ReadLength(data, offset) == length
  {
    LengthRoundTrip(length);
    var bytes := LengthBytes(length);
    assert data[offset + 0] == bytes[0] && data[offset + 1] == bytes[1];
    assert data[offset + 2] == bytes[2] && data[offset + 3] == bytes[3];
  }

  lemma FrameAt(data: seq<byte>, offset: nat, payload: seq<byte>)
    requires Frameable(payload) && At(data, offset, Frame(payload))
    ensures offset + PREFIX + |payload| <= |data| && ReadLength(data, offset) == |payload|
    ensures data[offset + PREFIX..offset + PREFIX + |payload|] == payload
  {
    hide LengthBytes, ReadLength;
    AtParts(data, offset, LengthBytes(|payload|), payload);
    LengthAt(data, offset, |payload|);
  }

  lemma DecodeFrame<R>(unpack: seq<byte> -> Option<R>, data: seq<byte>, offset: nat, payload: seq<byte>, cap: nat)
    requires Frameable(payload) && At(data, offset, Frame(payload)) && cap > 0
    ensures DecodeFrom(unpack, data, offset, cap)
         == Prepend(unpack(payload), DecodeFrom(unpack, data, offset + PREFIX + |payload|, cap - 1))
  {
    hide ReadLength, Frame;
    FrameAt(data, offset, payload);
  }

  function ValuesFrom<R>(unpack: seq<byte> -> Option<R>, payloads: seq<seq<byte>>, n: nat): (values: seq<R>)
    requires n <= |payloads| && forall p | p in payloads :: unpack(p).Some?
    ensures |values| == |payloads| - n
    decreases |payloads| - n
  {
    if n == |payloads| then [] else [unpack(payloads[n]).value] + ValuesFrom(unpack, payloads, n + 1)
  }

  lemma {:induction false} ValueAt<R>(unpack: seq<byte> -> Option<R>, payloads: seq<seq<byte>>, n: nat, i: nat)
    requires n <= i < |payloads| && forall p | p in payloads :: unpack(p).Some?
    ensures unpack(payloads[i]) == Some(ValuesFrom(unpack, payloads, n)[i - n])
    decreases |payloads| - n
  {
    if n < i {
      ValueAt(unpack, payloads, n + 1, i);
    }
  }

  lemma ContinueNone<R>(rest: Decoded<R>)
    ensures Continue([], rest) == rest
  {
    if rest.Records? {
      assert [] + rest.records == rest.records;
    }
  }

  lemma ContinueCons<R>(r: R, values: seq<R>, rest: Decoded<R>)
    ensures Prepend(Some(r), Continue(values, rest)) == Continue([r] + values, rest)
  {
    if rest.Records? {
      assert [r] + (values + rest.records) == ([r] + values) + rest.records;
    }
  }

  /** Decoding goes through framed payloads one by one and then meets the tail. */
  lemma {:induction false} DecodeThrough<R>(unpack: seq<byte> -> Option<R>, data: seq<byte>, offset: nat,
                                            payloads: seq<seq<byte>>, n: nat, tail: seq<byte>, cap: nat)
    requires n <= |payloads| && forall p | p in payloads :: Frameable(p) && unpack(p).Some?
    requires At(data, offset, EncodeFrom(payloads, n, tail)) && offset + |EncodeFrom(payloads, n, tail)| == |data|
    requires |payloads| - n <= cap
    ensures |tail| <= |data|
    ensures DecodeFrom(unpack, data, offset, cap)
         == Continue(ValuesFrom(unpack, payloads, n), DecodeFrom(unpack, data, |data| - |tail|, cap - (|payloads| - n)))
    decreases |payloads| - n
  {
    hide DecodeFrom, Continue, Frame;
    if n == |payloads| {
      ContinueNone(DecodeFrom(unpack, data, offset, cap));
    } else {
      AtParts(data, offset, Frame(payloads[n]), EncodeFrom(payloads, n + 1, tail));
      var next := offset + PREFIX + |payloads[n]|;
      DecodeThrough(unpack, data, next, payloads, n + 1, tail, cap - 1);
      DecodeFrame(unpack, data, offset, payloads[n], cap);
      ContinueCons(unpack(payloads[n]).value, ValuesFrom(unpack, payloads, n + 1),
                   DecodeFrom(unpack, data, |data| - |tail|, cap - (|payloads| - n)));
    }
  }

  // ---- The decoder, exactly ----

  /** What is wrong with the first frame of `tail`, if anything. */
  function Fault<R>(unpack: seq<byte> -> Option<R>, tail: seq<byte>): Option<FramingError> {
    if |tail| < PREFIX then Some(TruncatedLengthPrefix)
    else if ReadLength(tail, 0) == 0 then Some(InvalidRecordLength)
    else if |tail| < PREFIX + ReadLength(tail, 0) then Some(TruncatedRecord)
    else if unpack(tail[PREFIX..PREFIX + ReadLength(tail, 0)]).None? then Some(UnpackFailed)
    else None
  }

  /** `data` is the framed `payloads` and then `tail`, and reading it with the given cap gives
      `decoded`: the payloads' records when the cap or the end of the data stops the reading,
      the fault of the tail otherwise. */
  ghost predicate IsReading<R>(unpack: seq<byte> -> Option<R>, data: seq<byte>, cap: nat,
                               payloads: seq<seq<byte>>, tail: seq<byte>, decoded: Decoded<R>) {
    && (forall p | p in payloads :: Frameable(p) && unpack(p).Some?)
    && data == EncodeFrom(payloads, 0, tail)
    && |payloads| <= cap
    && match decoded
       case Records(records) => records == ValuesFrom(unpack, payloads, 0) && (|payloads| == cap || tail == [])
       case Broken(error) => |payloads| < cap && tail != [] && Fault(unpack, tail) == Some(error)
  }

  lemma FaultAt<R>(unpack: seq<byte> -> Option<R>, data: seq<byte>, offset: nat, tail: seq<byte>, cap: nat)
    requires offset <= |data| && tail == data[offset..] && tail != [] && cap > 0 && Fault(unpack, tail).Some?
    ensures DecodeFrom(unpack, data, offset, cap) == Broken(Fault(unpack, tail).value)
  {
    if |tail| >= PREFIX {
      hide ReadLength;
      LengthInTail(data, offset, tail);
      var length := ReadLength(tail, 0);
      if PREFIX + length <= |tail| {
        assert tail[PREFIX..PREFIX + length] == data[offset + PREFIX..offset + PREFIX + length];
      }
    }
  }

  lemma LengthInTail(data: seq<byte>, offset: nat, tail: seq<byte>)
    requires offset <= |data| && tail == data[offset..] && |tail| >= PREFIX
    ensures ReadLength(tail, 0) == ReadLength(data, offset)
  {
  }

  lemma {:induction false} EndOfTail(payloads: seq<seq<byte>>, n: nat, tail: seq<byte>)
    requires n <= |payloads| && forall p | p in payloads :: Frameable(p)
    ensures |tail| <= |EncodeFrom(payloads, n, tail)|
    ensures EncodeFrom(payloads, n, tail)[|EncodeFrom(payloads, n, tail)| - |tail|..] == tail
    decreases |payloads| - n
  {
    hide Frame;
    if n < |payloads| {
      EndOfTail(payloads, n + 1, tail);
    }
  }

  lemma NothingLeft<R>(unpack: seq<byte> -> Option<R>, data: seq<byte>, offset: nat, cap: nat)
    requires offset >= |data| || cap == 0
    ensures DecodeFrom(unpack, data, offset, cap) == Records([])
  {
  }

  lemma ReadingDecodes<R>(unpack: seq<byte> -> Option<R>, data: seq<byte>, cap: nat,
                          payloads: seq<seq<byte>>, tail: seq<byte>, decoded: Decoded<R>)
    requires IsReading(unpack, data, cap, payloads, tail, decoded)
    ensures DecodeFrom(unpack, data, 0, cap) == decoded
  {
    hide DecodeFrom, EncodeFrom, Fault;
    DecodeThrough(unpack, data, 0, payloads, 0, tail, cap);
    EndOfTail(payloads, 0, tail);
    if decoded.Broken? {
      FaultAt(unpack, data, |data| - |tail|, tail, cap - |payloads|);
    } else {
      NothingLeft(unpack, data, |data| - |tail|, cap - |payloads|);
      assert decoded.records + [] == decoded.records;
    }
  }

  lemma EncodeStep(payloads: seq<seq<byte>>, n: nat, tail: seq<byte>)
    requires n < |payloads| && forall q | q in payloads :: Frameable(q)
    ensures EncodeFrom(payloads, n, tail) == Frame(payloads[n]) + EncodeFrom(payloads, n + 1, tail)
  {
    hide Frame;
  }

  lemma EncodeEnd(payloads: seq<seq<byte>>, n: nat, tail: seq<byte>)
    requires n == |payloads| && forall q | q in payloads :: Frameable(q)
    ensures EncodeFrom(payloads, n, tail) == tail
  {
  }

  lemma {:induction false} EncodeShift(more: seq<seq<byte>>, payloads: seq<seq<byte>>, n: nat, tail: seq<byte>)
    requires n <= |payloads| && |more| == |payloads| + 1 && forall i | 0 <= i < |payloads| :: more[i + 1] == payloads[i]
    requires (forall q | q in payloads :: Frameable(q)) && forall q | q in more :: Frameable(q)
    ensures EncodeFrom(more, n + 1, tail) == EncodeFrom(payloads, n, tail)
    decreases |payloads| - n
  {
    hide EncodeFrom, Frame;
    if n < |payloads| {
      EncodeShift(more, payloads, n + 1, tail);
      EncodeStep(payloads, n, tail);
      EncodeStep(more, n + 1, tail);
    } else {
      EncodeEnd(payloads, n, tail);
      EncodeEnd(more, n + 1, tail);
    }
  }

  lemma {:induction false} ValuesShift<R>(unpack: seq<byte> -> Option<R>, more: seq<seq<byte>>, payloads: seq<seq<byte>>, n: nat)
    requires n <= |payloads| && |more| == |payloads| + 1 && forall i | 0 <= i < |payloads| :: more[i + 1] == payloads[i]
    requires (forall q | q in payloads :: unpack(q).Some?) && forall q | q in more :: unpack(q).Some?
    ensures ValuesFrom(unpack, more, n + 1) == ValuesFrom(unpack, payloads, n)
    decreases |payloads| - n
  {
    if n < |payloads| {
      ValuesShift(unpack, more, payloads, n + 1);
      assert more[n + 1] == payloads[n];
    }
  }

  lemma ReadingCons<R>(unpack: seq<byte> -> Option<R>, data: seq<byte>, cap: nat, p: seq<byte>, rest: seq<byte>,
                       payloads: seq<seq<byte>>, tail: seq<byte>, decoded: Decoded<R>)
    requires Frameable(p) && unpack(p).Some? && data == Frame(p) + rest && cap > 0
    requires IsReading(unpack, rest, cap - 1, payloads, tail, decoded)
    ensures IsReading(unpack, data, cap, [p] + payloads, tail, Prepend(unpack(p), decoded))
  {
    var more := [p] + payloads;
    EncodeShift(more, payloads, 0, tail);
    ValuesShift(unpack, more, payloads, 0);
    assert more[0] == p;
  }

  /** A tail without fault starts with a frame. */
  lemma FirstFrame<R>(unpack: seq<byte> -> Option<R>, data: seq<byte>, offset: nat, cap: nat) returns (payload: seq<byte>, next: nat)
    requires offset < |data| && cap > 0 && Fault(unpack, data[offset..]).None?
    ensures offset < next <= |data| && Frameable(payload) && unpack(payload).Some?
    ensures data[offset..] == Frame(payload) + data[next..]
    ensures DecodeFrom(unpack, data, offset, cap) == Prepend(unpack(payload), DecodeFrom(unpack, data, next, cap - 1))
  {
    hide ReadLength, LengthBytes;
    LengthInTail(data, offset, data[offset..]);
    PrefixRoundTrip(data, offset);
    var start := offset + PREFIX;
    next := start + ReadLength(data, offset);
    payload := data[start..next];
    assert data[offset..][PREFIX..PREFIX + ReadLength(data, offset)] == payload;
    assert data[offset..] == data[offset..start] + payload + data[next..];
  }

  lemma {:induction false} ReadingExists<R>(unpack: seq<byte> -> Option<R>, data: seq<byte>, offset: nat, cap: nat)
    returns (payloads: seq<seq<byte>>, tail: seq<byte>)
    requires offset <= |data|
    ensures IsReading(unpack, data[offset..], cap, payloads, tail, DecodeFrom(unpack, data, offset, cap))
    decreases cap
  {
    if offset == |data| || cap == 0 || Fault(unpack, data[offset..]).Some? {
      payloads, tail := [], data[offset..];
      if offset < |data| && cap > 0 {
        FaultAt(unpack, data, offset, tail, cap);
      }
    } else {
      hide DecodeFrom, IsReading, Fault;
      var p, next := FirstFrame(unpack, data, offset, cap);
      payloads, tail := ReadingExists(unpack, data, next, cap - 1);
      ReadingCons(unpack, data[offset..], cap, p, data[next..], payloads, tail, DecodeFrom(unpack, data, next, cap - 1));
      payloads := [p] + payloads;
    }
  }

  /** The decoder, exactly: it returns `decoded` if and only if the data is a row of framed
      records followed by a tail that the cap hides, that is empty, or that has the fault
      reported. */
  lemma DecoderIsExact<R>(unpack: seq<byte> -> Option<R>, data: seq<byte>, cap: nat, decoded: Decoded<R>)
    ensures DecodeFrom(unpack, data, 0, cap) == decoded
       <==> exists payloads, tail :: IsReading(unpack, data, cap, payloads, tail, decoded)
  {
    var payloads, tail := ReadingExists(unpack, data, 0, cap);
    assert data[0..] == data;
    forall payloads, tail | IsReading(unpack, data, cap, payloads, tail, decoded)
      ensures DecodeFrom(unpack, data, 0, cap) == decoded
    {
      ReadingDecodes(unpack, data, cap, payloads, tail, decoded);
    }
  }

  /** Decoding framed records returns the first `cap` of them, whatever follows those. */
  lemma DecodeOfEncode<R>(unpack: seq<byte> -> Option<R>, payloads: seq<seq<byte>>, beyond: seq<byte>, cap: nat)
    requires forall p | p in payloads :: Frameable(p) && unpack(p).Some?
    requires |payloads| == cap || (|payloads| < cap && beyond == [])
    ensures DecodeFrom(unpack, EncodeFrom(payloads, 0, beyond), 0, cap) == Records(ValuesFrom(unpack, payloads, 0))
  {
    ReadingDecodes(unpack, EncodeFrom(payloads, 0, beyond), cap, payloads, beyond, Records(ValuesFrom(unpack, payloads, 0)));
  }

  /** Success below the cap loses nothing: encoding the records' bytes again gives the file. */
  lemma SuccessReencodes<R>(unpack: seq<byte> -> Option<R>, data: seq<byte>, cap: nat) returns (payloads: seq<seq<byte>>)
    requires DecodeFrom(unpack, data, 0, cap).Records? && |DecodeFrom(unpack, data, 0, cap).records| < cap
    ensures (forall p | p in payloads :: Frameable(p)) && Encode(payloads) == data
    ensures |payloads| == |DecodeFrom(unpack, data, 0, cap).records|
    ensures forall i | 0 <= i < |payloads| :: unpack(payloads[i]) == Some(DecodeFrom(unpack, data, 0, cap).records[i])
  {
    hide DecodeFrom, EncodeFrom, ValuesFrom, Fault;
    var tail;
    payloads, tail := ReadingExists(unpack, data, 0, cap);
    assert data[0..] == data;
    forall i | 0 <= i < |payloads|
      ensures unpack(payloads[i]) == Some(DecodeFrom(unpack, data, 0, cap).records[i])
    {
      ValueAt(unpack, payloads, 0, i);
    }
  }

  // ---- The first frame, byte by byte ----

  /** Four bytes and what they mean. */
  lemma LengthMeaning(data: seq<byte>, offset: nat)
    requires offset + 4 <= |data|
    ensures ReadLength(data, offset)
         == data[offset] as int * 16777216 + data[offset + 1] as int * 65536 + data[offset + 2] as int * 256 + data[offset + 3]
    ensures PREFIX == 4 && LIMIT == 4294967296
  {
  }

  /** Which error ends the decoding at its first frame, and when it does not. */
  lemma FirstFrameMeaning<R>(unpack: seq<byte> -> Option<R>, data: seq<byte>, cap: nat)
    ensures data == [] || cap == 0 ==> DecodeFrom(unpack, data, 0, cap) == Records([])
    ensures 0 < |data| < 4 && cap > 0 ==> DecodeFrom(unpack, data, 0, cap) == Broken(TruncatedLengthPrefix)
    ensures |data| >= 4 && cap > 0 ==>
      var length := data[0] as int * 16777216 + data[1] as int * 65536 + data[2] as int * 256 + data[3];
      && (length == 0 ==> DecodeFrom(unpack, data, 0, cap) == Broken(InvalidRecordLength))
      && (length > |data| - 4 ==> DecodeFrom(unpack, data, 0, cap) == Broken(TruncatedRecord))
      && (0 < length <= |data| - 4 && unpack(data[4..4 + length]).None? ==>
            DecodeFrom(unpack, data, 0, cap) == Broken(UnpackFailed))
  {
    if |data| >= 4 {
      LengthMeaning(data, 0);
      hide ReadLength;
    }
  }
}
