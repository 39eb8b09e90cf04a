/** The report made of a trace file: its header, how many records it counts, which storage
    calls they name, and how malformed files end up. */
module TraceReport {
  import opened Basics
  import opened Counts
  import opened TraceFraming

  datatype ParseError = Unreadable(message: string) | EmptyTraceFile | Malformed(error: FramingError) | NoRecords

  datatype Report<+R> = Report(
    parseError: Option<ParseError>, header: Option<R>, recordCount: nat, truncated: bool,
    storageCalls: map<string, int>, firstRecord: Option<R>, lastRecord: Option<R>, measured: bool)

  datatype FileRead = Data(bytes: seq<byte>) | Failed(message: string)

  function Unparsed<R>(error: ParseError): Report<R> {
    Report(Some(error), None, 0, false, map[], None, None, false)
  }

  /** Where the part of a qualified name behind its last dot starts. */
  function LastPart(name: string, n: nat): (start: nat)
    requires n <= |name|
    ensures start <= n
    ensures forall k | start <= k < n :: name[k] != '.'
    ensures start > 0 ==> name[start - 1] == '.'
  {
    if n == 0 || name[n - 1] == '.' then n else LastPart(name, n - 1)
  }

  function ShortName(qualname: string): string {
    if qualname == "" then "unknown" else qualname[LastPart(qualname, |qualname|)..]
  }

  /** How often the first `n` records make the call `name`. */
  function CallsOf<R>(qualname: R -> string, body: seq<R>, n: nat, name: string): nat
    requires n <= |body|
  {
    if n == 0 then 0 else
    CallsOf(qualname, body, n - 1, name) + if ShortName(qualname(body[n - 1])) == name then 1 else 0
  }

  /** What the counting loop has built after `n` records. */
  function CallsUpTo<R>(qualname: R -> string, body: seq<R>, n: nat): map<string, int>
    requires n <= |body|
  {
    if n == 0 then map[] else Bump(CallsUpTo(qualname, body, n - 1), ShortName(qualname(body[n - 1])), 1)
  }

  function ReportOfBody<R>(qualname: R -> string, header: R, body: seq<R>): Report<R> {
    Report(None, Some(header), |body|, false, CallsUpTo(qualname, body, |body|),
           if body == [] then None else Some(body[0]),
           if body == [] then None else Some(body[|body| - 1]), body != [])
  }

  /** What a read makes a report of; `limit` bounds the records behind the header. */
  function ReportOf<R>(unpack: seq<byte> -> Option<R>, qualname: R -> string, read: FileRead, limit: nat): Report<R> {
    match read
    case Failed(message) => Unparsed(Unreadable(message))
    case Data(bytes) =>
      if bytes == [] then Unparsed(EmptyTraceFile) else
      match DecodeFrom(unpack, bytes, 0, limit + 1)
      case Broken(error) => Unparsed(Malformed(error))
      case Records(records) =>
        if records == [] then Unparsed(NoRecords) else ReportOfBody(qualname, records[0], records[1..])
  }

  /** Python's `xs[:n]` for a list that may be shorter. */
  function AtMost<R>(xs: seq<R>, n: nat): seq<R> {
    if |xs| > n then xs[..n] else xs
  }

  /** The loop over the records behind the header. */
  method CountCalls<R>(qualname: R -> string, body: seq<R>) returns (calls: map<string, int>, first: Option<R>, last: Option<R>)
    ensures calls == CallsUpTo(qualname, body, |body|)
    ensures first == if body == [] then None else Some(body[0])
    ensures last == if body == [] then None else Some(body[|body| - 1])
  {
    hide ShortName;
    calls, first, last := map[], None, None;
    for i := 0 to |body|
      invariant calls == CallsUpTo(qualname, body, i)
      invariant first == if i == 0 then None else Some(body[0])
      invariant last == if i == 0 then None else Some(body[i - 1])
    {
      var short := ShortName(qualname(body[i]));
      calls := Bump(calls, short, 1);
      if first.None? {
        first := Some(body[i]);
      }
      last := Some(body[i]);
    }
  }

  /** The parser. The records are read with a cap of one header and `limit` more, so the branch
      that would mark a report as truncated is never taken. */
  method ParseTraceFile<R>(unpack: seq<byte> -> Option<R>, qualname: R -> string, read: FileRead, limit: nat)
    returns (report: Report<R>)
    ensures report == ReportOf(unpack, qualname, read, limit)
    ensures !report.truncated
  {
    hide DecodeFrom, CallsUpTo;
    if read.Failed? {
      return Unparsed(Unreadable(read.message));
    }
    if read.bytes == [] {
      return Unparsed(EmptyTraceFile);
    }
    var decoded := IterRecords(unpack, read.bytes, limit + 1);
    if decoded.Broken? {
      return Unparsed(Malformed(decoded.error));
    }
    var records := decoded.records;
    if records == [] {
      return Unparsed(NoRecords);
    }
    CapHolds(unpack, read.bytes, 0, limit + 1);
    var body := records[1..];
    var truncated := |body| > limit;
    body := AtMost(body, limit);
    var calls, first, last := CountCalls(qualname, body);
    return Report(None, Some(records[0]), |body|, truncated, calls, first, last, |body| > 0);
  }

  lemma {:induction false} CapHolds<R>(unpack: seq<byte> -> Option<R>, data: seq<byte>, offset: nat, cap: nat)
    ensures var d := DecodeFrom(unpack, data, offset, cap); d.Records? ==> |d.records| <= cap
    ensures var d := DecodeFrom(unpack, data, offset, cap); d.Records? && offset < |data| && cap > 0 ==> d.records != []
    decreases cap
  {
    hide ReadLength;
    if offset + PREFIX <= |data| && cap > 0 {
      CapHolds(unpack, data, offset + PREFIX + ReadLength(data, offset), cap - 1);
    }
  }

  /** The storage calls account for every counted record: each name as often as it occurs, and
      all names together as often as there are records. */
  lemma {:induction false} CallsAreCounted<R>(qualname: R -> string, body: seq<R>, n: nat, name: string)
    requires n <= |body|
    ensures Get(CallsUpTo(qualname, body, n), name) == CallsOf(qualname, body, n, name)
    ensures name in CallsUpTo(qualname, body, n) <==> CallsOf(qualname, body, n, name) > 0
    ensures Total(CallsUpTo(qualname, body, n)) == n
  {
    hide ShortName;
    if n > 0 {
      CallsAreCounted(qualname, body, n - 1, name);
      TotalOfBump(CallsUpTo(qualname, body, n - 1), ShortName(qualname(body[n - 1])), 1);
    }
  }

  ghost predicate Consistent<R>(report: Report<R>, limit: nat) {
    && Total(report.storageCalls) == report.recordCount <= limit
    && !report.truncated
    && report.parseError != Some(NoRecords)
    && (report.measured <==> report.recordCount > 0)
  }

  lemma BodyReportIsConsistent<R>(qualname: R -> string, header: R, body: seq<R>, limit: nat)
    requires |body| <= limit
    ensures Consistent(ReportOfBody(qualname, header, body), limit)
  {
    hide CallsUpTo, Total;
    CallsAreCounted(qualname, body, |body|, ShortName(""));
  }

  lemma UnparsedIsConsistent<R>(error: ParseError, limit: nat)
    requires error != NoRecords
    ensures Consistent<R>(Unparsed(error), limit)
  {
  }

  /** Every report, whatever the file: the calls add up to the record count, at most `limit`
      records are counted, no report is marked truncated, and "no records" is never the error. */
  lemma ReportIsConsistent<R>(unpack: seq<byte> -> Option<R>, qualname: R -> string, read: FileRead, limit: nat)
    ensures Consistent(ReportOf(unpack, qualname, read, limit), limit)
  {
    hide DecodeFrom, Consistent, ReportOfBody, Unparsed;
    match read {
      case Failed(message) => UnparsedIsConsistent<R>(Unreadable(message), limit);
      case Data(bytes) =>
        if bytes == [] {
          UnparsedIsConsistent<R>(EmptyTraceFile, limit);
        } else {
          CapHolds(unpack, bytes, 0, limit + 1);
          match DecodeFrom(unpack, bytes, 0, limit + 1) {
            case Broken(error) => UnparsedIsConsistent<R>(Malformed(error), limit);
            case Records(records) => BodyReportIsConsistent(qualname, records[0], records[1..], limit);
          }
        }
    }
  }

  lemma {:induction false} EncodeSplit(payloads: seq<seq<byte>>, first: seq<seq<byte>>, n: nat)
    requires (forall p | p in payloads :: Frameable(p)) && n <= |first| <= |payloads| && first == payloads[..|first|]
    ensures forall p | p in first :: Frameable(p)
    ensures EncodeFrom(payloads, n, []) == EncodeFrom(first, n, EncodeFrom(payloads, |first|, []))
    decreases |first| - n
  {
    hide Frame;
    if n < |first| {
      EncodeSplit(payloads, first, n + 1);
    }
  }

  function Smaller(a: nat, b: nat): (c: nat)
    ensures c <= a && c <= b
  {
    if a < b then a else b
  }

  lemma ValuesOfPrefix<R>(unpack: seq<byte> -> Option<R>, payloads: seq<seq<byte>>, first: seq<seq<byte>>)
    requires (forall p | p in payloads :: unpack(p).Some?) && |first| <= |payloads| && first == payloads[..|first|]
    ensures forall p | p in first :: unpack(p).Some?
    ensures ValuesFrom(unpack, first, 0) == ValuesFrom(unpack, payloads, 0)[..|first|]
  {
    var values, firstValues := ValuesFrom(unpack, payloads, 0), ValuesFrom(unpack, first, 0);
    forall i | 0 <= i < |first|
      ensures firstValues[i] == values[i]
    {
      assert first[i] == payloads[i];
      ValueAt(unpack, first, 0, i);
      ValueAt(unpack, payloads, 0, i);
    }
  }

  lemma ReportOfDecoded<R>(unpack: seq<byte> -> Option<R>, qualname: R -> string, bytes: seq<byte>, records: seq<R>, limit: nat)
    requires bytes != [] && records != [] && DecodeFrom(unpack, bytes, 0, limit + 1) == Records(records)
    ensures ReportOf(unpack, qualname, Data(bytes), limit) == ReportOfBody(qualname, records[0], records[1..])
  {
    hide DecodeFrom, ReportOfBody;
  }

  lemma EncodeIsNotEmpty(payloads: seq<seq<byte>>)
    requires payloads != [] && forall p | p in payloads :: Frameable(p)
    ensures Encode(payloads) != []
  {
    EncodeStep(payloads, 0, []);
  }

  lemma DecodeOfPrefix<R>(unpack: seq<byte> -> Option<R>, payloads: seq<seq<byte>>, first: seq<seq<byte>>, cap: nat)
    requires forall p | p in payloads :: Frameable(p) && unpack(p).Some?
    requires |first| <= |payloads| && first == payloads[..|first|] && |first| == Smaller(|payloads|, cap)
    ensures DecodeFrom(unpack, Encode(payloads), 0, cap) == Records(ValuesFrom(unpack, payloads, 0)[..|first|])
  {
    hide DecodeFrom, EncodeFrom, ValuesFrom;
    EncodeSplit(payloads, first, 0);
    if |first| == |payloads| {
      EncodeEnd(payloads, |first|, []);
    }
    ValuesOfPrefix(unpack, payloads, first);
    DecodeOfEncode(unpack, first, EncodeFrom(payloads, |first|, []), cap);
  }

  lemma HeadAndRest<R>(values: seq<R>, kept: nat)
    requires 1 + kept <= |values|
    ensures values[..1 + kept][0] == values[0] && values[..1 + kept][1..] == values[1..1 + kept]
  {
  }

  /** What a well-formed file of a header and `n - 1` records reports: the first
      min(n - 1, limit) records behind the header, and nothing of the others. */
  lemma ReportOfRecords<R>(unpack: seq<byte> -> Option<R>, qualname: R -> string, payloads: seq<seq<byte>>, limit: nat)
    requires payloads != [] && forall p | p in payloads :: Frameable(p) && unpack(p).Some?
    ensures var values := ValuesFrom(unpack, payloads, 0);
      var kept := Smaller(|payloads| - 1, limit);
      ReportOf(unpack, qualname, Data(Encode(payloads)), limit)
        == ReportOfBody(qualname, values[0], values[1..1 + kept])
  {
    hide *;
    var kept := Smaller(|payloads| - 1, limit);
    DecodeOfFile(unpack, payloads, kept, limit);
    ReportOfKept(unpack, qualname, Encode(payloads), ValuesFrom(unpack, payloads, 0), kept, limit);
  }

  lemma DecodeOfFile<R>(unpack: seq<byte> -> Option<R>, payloads: seq<seq<byte>>, kept: nat, limit: nat)
    requires payloads != [] && forall p | p in payloads :: Frameable(p) && unpack(p).Some?
    requires kept == Smaller(|payloads| - 1, limit)
    ensures Encode(payloads) != []
    ensures DecodeFrom(unpack, Encode(payloads), 0, limit + 1) == Records(ValuesFrom(unpack, payloads, 0)[..1 + kept])
  {
    hide *;
    SmallerOfNext(|payloads| - 1, limit);
    DecodeOfPrefix(unpack, payloads, payloads[..1 + kept], limit + 1);
    EncodeIsNotEmpty(payloads);
  }

  lemma ReportOfKept<R>(unpack: seq<byte> -> Option<R>, qualname: R -> string, bytes: seq<byte>, values: seq<R>,
                        kept: nat, limit: nat)
    requires bytes != [] && 1 + kept <= |values|
    requires DecodeFrom(unpack, bytes, 0, limit + 1) == Records(values[..1 + kept])
    ensures ReportOf(unpack, qualname, Data(bytes), limit) == ReportOfBody(qualname, values[0], values[1..1 + kept])
  {
    hide *;
    ReportOfDecoded(unpack, qualname, bytes, values[..1 + kept], limit);
    HeadAndRest(values, kept);
  }

  lemma SmallerOfNext(a: nat, b: nat)
    ensures Smaller(a + 1, b + 1) == Smaller(a, b) + 1
  {
  }

  /** Overflow goes unnoticed: records beyond the limit change nothing in the report, and it
      does not say that they are there. */
  lemma OverflowIsInvisible<R>(unpack: seq<byte> -> Option<R>, qualname: R -> string, payloads: seq<seq<byte>>, limit: nat)
    requires |payloads| > limit + 1 && forall p | p in payloads :: Frameable(p) && unpack(p).Some?
    ensures forall p | p in payloads[..limit + 1] :: Frameable(p)
    ensures ReportOf(unpack, qualname, Data(Encode(payloads)), limit)
         == ReportOf(unpack, qualname, Data(Encode(payloads[..limit + 1])), limit)
  {
    hide ReportOf, ReportOfBody, ValuesFrom;
    var first := payloads[..limit + 1];
    ReportOfRecords(unpack, qualname, payloads, limit);
    ReportOfRecords(unpack, qualname, first, limit);
    ValuesOfPrefix(unpack, payloads, first);
    var values := ValuesFrom(unpack, payloads, 0);
    assert values[..|first|][1..1 + limit] == values[1..1 + limit];
  }

  // ---- The report, case by case ----

  lemma {:induction false} LastPartIs(name: string, p: nat, n: nat)
    requires p <= n <= |name| && (p == 0 || name[p - 1] == '.') && forall k | p <= k < n :: name[k] != '.'
    ensures LastPart(name, n) == p
  {
    if p < n {
      LastPartIs(name, p, n - 1);
    }
  }

  /** A call goes by the part of its qualified name behind the last dot; without a name it is
      unknown. */
  lemma ShortNameMeaning(prefix: string, last: string)
    requires '.' !in last
    ensures ShortName("") == "unknown"
    ensures last != "" ==> ShortName(last) == last
    ensures ShortName(prefix + "." + last) == last
  {
    LastPartIs(last, 0, |last|);
    var name, p := prefix + "." + last, |prefix| + 1;
    assert name[p - 1] == '.' && name[p..] == last;
    assert forall k | p <= k < |name| :: name[k] == last[k - p];
    LastPartIs(name, p, |name|);
  }

  /** What a report holds, and which fault of the file it names. */
  lemma ReportMeaning<R>(unpack: seq<byte> -> Option<R>, qualname: R -> string, read: FileRead, limit: nat)
    ensures var report := ReportOf(unpack, qualname, read, limit);
      match read {
        case Failed(message) => report.parseError == Some(Unreadable(message)) && report.recordCount == 0
        case Data(bytes) =>
          var decoded := DecodeFrom(unpack, bytes, 0, limit + 1);
          && (bytes == [] ==> report.parseError == Some(EmptyTraceFile) && report.recordCount == 0)
          && (bytes != [] && decoded.Broken? ==>
                report.parseError == Some(Malformed(decoded.error)) && report.recordCount == 0 && report.header == None)
          && (bytes != [] && decoded.Records? && |decoded.records| > 0 ==>
                && report.parseError == None && report.header == Some(decoded.records[0])
                && report.recordCount == |decoded.records| - 1
                && (report.measured <==> |decoded.records| > 1)
                && (|decoded.records| == 1 ==> report.firstRecord == None && report.lastRecord == None)
                && (|decoded.records| > 1 ==>
                      && report.firstRecord == Some(decoded.records[1])
                      && report.lastRecord == Some(decoded.records[|decoded.records| - 1])))
      }
  {
    hide DecodeFrom, CallsUpTo;
  }
}
