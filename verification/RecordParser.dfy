/** The collector's decoder: a batch is a concatenation of self-sized records. */
module RecordParser {
  import opened Bytes
  import opened AuditRecord

  datatype ParseError = TruncatedHeader | InvalidTotalSize | ExceedsBatch | InvalidEvent

  /** One decoded record: its bytes, where it starts and how long it is. */
  datatype ParsedEvent = ParsedEvent(record: bytes, offset: nat, size: nat)

  datatype ParseResult = Parsed(events: seq<ParsedEvent>) | Rejected(error: ParseError)

  datatype Head = Size(size: nat) | Bad(error: ParseError)

  /** The size of the record at `offset`, or why the decoder refuses it. */
  function ReadHead(data: bytes, offset: nat): Head
    requires offset < |data|
  {
    if |data| - offset < 4 then Bad(TruncatedHeader) else
      var total := Field(data, offset, 4);
      if total < PAYLOAD || total > AUDIT_RECORD_MAX then Bad(InvalidTotalSize)
      else if total > |data| - offset then Bad(ExceedsBatch)
      else if !SizesAgree(data[offset..offset + total], total) then Bad(InvalidEvent)
      else Size(total)
  }

  lemma FieldOfPart(data: bytes, offset: nat, n: nat)
    requires offset + n <= |data| && n >= 4
    ensures Field(data[offset..offset + n], 0, 4) == Field(data, offset, 4)
  {
    SliceOfSlice(data, offset, offset + n, offset, offset + 4);
  }

  /** A size is read exactly when the bytes there begin with a valid record, and it is that record's. */
  lemma HeadSound(data: bytes, offset: nat)
    requires offset < |data| && ReadHead(data, offset).Size?
    ensures var n := ReadHead(data, offset).size;
            0 < n && offset + n <= |data| && ValidRecord(data[offset..offset + n])
  {
    FieldOfPart(data, offset, ReadHead(data, offset).size);
  }

  lemma HeadComplete(data: bytes, offset: nat, part: bytes)
    requires offset + |part| <= |data| && data[offset..offset + |part|] == part && ValidRecord(part)
    ensures offset < |data| && ReadHead(data, offset) == Size(|part|)
  {
    FieldOfPart(data, offset, |part|);
  }

  function Onto(events: seq<ParsedEvent>, r: ParseResult): ParseResult
  {
    match r
    case Rejected(_) => r
    case Parsed(rest) => Parsed(events + rest)
  }

  function ParseFrom(data: bytes, offset: nat): ParseResult
    requires offset <= |data|
    decreases |data| - offset
  {
    if offset == |data| then Parsed([]) else
      match ReadHead(data, offset)
      case Bad(error) => Rejected(error)
      case Size(n) => Onto([ParsedEvent(data[offset..offset + n], offset, n)], ParseFrom(data, offset + n))
  }

  function Parse(data: bytes): ParseResult
  {
    ParseFrom(data, 0)
  }

  lemma OntoOnto(first: seq<ParsedEvent>, second: seq<ParsedEvent>, r: ParseResult)
    ensures Onto(first, Onto(second, r)) == Onto(first + second, r)
  {
    if r.Parsed? {
      assert first + (second + r.events) == first + second + r.events;
    }
  }

  method ParseAuditRecords(data: bytes) returns (result: ParseResult)
    ensures result == Parse(data)
  {
    hide SizesAgree, FromLE;
    var events: seq<ParsedEvent> := [];
    var offset := 0;
    assert forall r :: Onto([], r) == r;
    while offset < |data|
      invariant offset <= |data|
      invariant Parse(data) == Onto(events, ParseFrom(data, offset))
      decreases |data| - offset
    {
      match ReadHead(data, offset) {
        case Bad(error) =>
          return Rejected(error);
        case Size(n) =>
          var event := ParsedEvent(data[offset..offset + n], offset, n);
          OntoOnto(events, [event], ParseFrom(data, offset + n));
          events := events + [event];
          offset := offset + n;
      }
    }
    assert events + [] == events;
    return Parsed(events);
  }

  predicate AllValid(parts: seq<bytes>)
  {
    forall i :: 0 <= i < |parts| ==> ValidRecord(parts[i])
  }

  function Records(events: seq<ParsedEvent>): (parts: seq<bytes>)
    ensures |parts| == |events|
  {
    if events == [] then [] else [events[0].record] + Records(events[1..])
  }

  /** The events start at `from`, follow each other without gap or overlap, hold the bytes at their
    * place and end with the data. */
  predicate Tiles(data: bytes, events: seq<ParsedEvent>, from: nat)
  {
    if events == [] then from == |data|
    else
      && events[0].offset == from && from + events[0].size <= |data|
      && events[0].record == data[from..from + events[0].size]
      && Tiles(data, events[1..], from + events[0].size)
  }

  /** What the decoder returns is a tiling of the buffer by valid records. */
  lemma {:induction false} ParseSound(data: bytes, offset: nat)
    requires offset <= |data| && ParseFrom(data, offset).Parsed?
    ensures var events := ParseFrom(data, offset).events;
            Tiles(data, events, offset) && AllValid(Records(events)) && Concat(Records(events)) == data[offset..]
    decreases |data| - offset
  {
    hide ReadHead, ValidRecord;
    if offset < |data| {
      var n := ReadHead(data, offset).size;
      HeadSound(data, offset);
      ParseSound(data, offset + n);
      var rest := ParseFrom(data, offset + n).events;
      var events := [ParsedEvent(data[offset..offset + n], offset, n)] + rest;
      assert ParseFrom(data, offset).events == events && events[1..] == rest;
      assert data[offset..] == data[offset..offset + n] + data[offset + n..];
    }
  }

  /** Every concatenation of valid records is accepted, and cut exactly where it was joined. */
  lemma {:induction false} ParseComplete(data: bytes, offset: nat, parts: seq<bytes>)
    requires offset <= |data| && AllValid(parts) && data[offset..] == Concat(parts)
    ensures ParseFrom(data, offset).Parsed? && Records(ParseFrom(data, offset).events) == parts
    decreases |parts|
  {
    hide ReadHead, ValidRecord;
    if parts == [] {
      assert |data[offset..]| == 0;
    } else {
      var n := |parts[0]|;
      SplitHead(data, offset, parts);
      HeadComplete(data, offset, parts[0]);
      ParseComplete(data, offset + n, parts[1..]);
      var rest := ParseFrom(data, offset + n).events;
      var events := [ParsedEvent(parts[0], offset, n)] + rest;
      assert ParseFrom(data, offset).events == events && events[1..] == rest;
    }
  }

  lemma SplitHead(data: bytes, offset: nat, parts: seq<bytes>)
    requires offset <= |data| && parts != [] && data[offset..] == Concat(parts)
    ensures offset + |parts[0]| <= |data|
    ensures data[offset..offset + |parts[0]|] == parts[0]
    ensures data[offset + |parts[0]|..] == Concat(parts[1..])
  {
    var n := |parts[0]|;
    assert |data[offset..]| == n + |Concat(parts[1..])|;
    assert data[offset..|data|] == data[offset..];
    SliceOfSlice(data, offset, |data|, offset, offset + n);
    SliceOfSlice(data, offset, |data|, offset + n, |data|);
    assert data[offset..][0..n] == parts[0] && data[offset..][n..|data| - offset] == Concat(parts[1..]);
  }

  ghost predicate IsDecomposition(parts: seq<bytes>, data: bytes)
  {
    AllValid(parts) && Concat(parts) == data
  }

  /** Decoding succeeds if and only if the bytes are a concatenation of valid records; then there is
    * only one such decomposition, the events tile the buffer and are its parts. */
  lemma ParseExact(data: bytes)
    ensures Parse(data).Parsed? <==> exists parts :: IsDecomposition(parts, data)
    ensures Parse(data).Parsed? ==> Tiles(data, Parse(data).events, 0)
    ensures forall parts :: IsDecomposition(parts, data) ==> parts == Records(Parse(data).events)
  {
    assert data[0..] == data;
    if Parse(data).Parsed? {
      ParseSound(data, 0);
      assert IsDecomposition(Records(Parse(data).events), data);
    }
    forall parts | IsDecomposition(parts, data)
      ensures Parse(data).Parsed? && parts == Records(Parse(data).events)
    {
      ParseComplete(data, 0, parts);
    }
  }
}
