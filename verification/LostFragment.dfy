/** What the agent submits when the SQL fragment of an event was lost and its tail was not. */
module LostFragment {
  import opened Bytes
  import opened Wrappers
  import opened AuditRecord
  import opened Capture
  import opened Reassembly
  import opened RoundTrip

  /** Where the lost piece of the SQL would have gone. */
  function HoleFrom(call: AuditCall): nat
    requires call.Readable()
  {
    PAYLOAD + |Names(call)| + MAIN_SQL_MAX
  }

  function HoleTo(call: AuditCall): nat
    requires call.Readable()
  {
    PAYLOAD + |Names(call)| + |CapturedSql(call)|
  }

  /** A call both of whose fields are fragmented. */
  predicate BothLong(call: AuditCall)
    requires call.Readable()
  {
    LengthsFit(call) && |call.sql.Text()| > MAIN_SQL_MAX && |call.params.Text()| > MAIN_PARAMS_MAX
  }

  /** The main record leaves the hole as the allocator handed it out. */
  lemma MainLeavesHole(memory: bytes, e: bytes, call: AuditCall, q: nat, n: nat)
    requires call.Readable() && BothLong(call) && MainImage(e, call, q, n) && HasHeader(e)
    requires |memory| >= PAYLOAD && FullSize(e) <= |memory|
    ensures PayloadInside(e) && HoleFrom(call) <= HoleTo(call) <= |memory|
    ensures StoreMain(memory, e)[HoleFrom(call)..HoleTo(call)] == memory[HoleFrom(call)..HoleTo(call)]
  {
    hide Field, HasFlag, Splice, Names, CapturedSql, CapturedParams, FirstSql, FirstParams, StoreMain, FullSql;
    hide FullParams, NamesLen;
    hide UserString.Text, LengthsFit, CompactSizeValid, Fragmented;
    ImageSizes(e, call, q, n);
    ImagePieces(e, call, q, n);
    FirstLengths(call);
    FirstPieces(call);
    FittingSizes(call);
    var names, first, last := Names(call), FirstSql(call), FirstParams(call);
    StoreMainIs(memory, e, names, first, last);
    HoleKept(memory, e[..PAYLOAD], names, first, last, HoleTo(call));
  }

  lemma HoleKept(memory: bytes, header: bytes, names: bytes, first: bytes, last: bytes, lastAt: nat)
    requires |header| == PAYLOAD && PAYLOAD + |names| + |first| <= lastAt && lastAt + |last| <= |memory|
    ensures var at := PAYLOAD + |names|;
            var r := Splice(Splice(Splice(Splice(memory, 0, header), PAYLOAD, names), at, first), lastAt, last);
            |r| == |memory| && r[at + |first|..lastAt] == memory[at + |first|..lastAt]
  {
    hide Splice;
    var at := PAYLOAD + |names|;
    var s1 := Splice(memory, 0, header);
    var s2 := Splice(s1, PAYLOAD, names);
    var s3 := Splice(s2, at, first);
    SpliceKeeps(memory, 0, header, at + |first|, lastAt);
    SpliceKeeps(s1, PAYLOAD, names, at + |first|, lastAt);
    SpliceKeeps(s2, at, first, at + |first|, lastAt);
    SpliceKeeps(s3, lastAt, last, at + |first|, lastAt);
  }

  /** A segment that lacks the piece makes a whole record if and only if its old content is that piece. */
  lemma HoleDecides(seg: bytes, e: bytes, call: AuditCall, ip: bytes, q: nat, n: nat)
    requires call.Readable() && BothLong(call) && MainImage(e, call, q, n) && HasHeader(e) && |ip| == MAX_IP_LEN
    requires Building(seg, e, call, MAIN_SQL_MAX, |CapturedParams(call)|)
    ensures HoleFrom(call) <= HoleTo(call) <= |Merged(seg, ip)| <= |seg|
    ensures Merged(seg, ip)[HoleFrom(call)..HoleTo(call)] == seg[HoleFrom(call)..HoleTo(call)]
    ensures HasFlag(Field(Merged(seg, ip), RECORD_FLAGS, 2), LOGICAL_COMPLETE)
    ensures WholeRecord(Merged(seg, ip), e, call, ip) <==>
              seg[HoleFrom(call)..HoleTo(call)] == CapturedSql(call)[MAIN_SQL_MAX..]
  {
    hide Field, HasFlag, Names, CapturedSql, CapturedParams, FullSql, FullParams, NamesLen, Merged, MainImage;
    hide LengthsFit;
    hide UserString.Text, WholeRecord;
    SmallSizes(seg, call);
    MergedFields(seg, ip);
    var out := Merged(seg, ip);
    SliceOfTail(out, seg, FullSize(seg), HoleFrom(call), HoleTo(call));
    if seg[HoleFrom(call)..HoleTo(call)] == CapturedSql(call)[MAIN_SQL_MAX..] {
      FilledByLuck(seg, e, call);
      BuiltWhole(seg, e, call, ip, q, n);
    }
    if WholeRecord(out, e, call, ip) {
      WholeHole(out, e, call, ip);
    }
  }

  lemma SmallSizes(seg: bytes, call: AuditCall)
    requires call.Readable() && SegmentOk(seg) && NamesLen(seg) == |Names(call)|
    requires FullSql(seg) == |CapturedSql(call)| && FullParams(seg) == |CapturedParams(call)|
    ensures FullSize(seg) < U32
  {
    hide Field, HasFlag, Names, FullSql, FullParams, NamesLen, CapturedSql, CapturedParams;
    NamesShort(call);
  }

  lemma SliceOfTail(out: bytes, seg: bytes, size: nat, lo: nat, hi: nat)
    requires OB_RAW <= lo <= hi <= size == |out| <= |seg| && out[OB_RAW..|out|] == seg[OB_RAW..size]
    ensures out[lo..hi] == seg[lo..hi]
  {
    SliceOfSlice(out, OB_RAW, |out|, lo, hi);
    SliceOfSlice(seg, OB_RAW, size, lo, hi);
  }

  lemma FilledByLuck(seg: bytes, e: bytes, call: AuditCall)
    requires call.Readable() && HasHeader(e) && Building(seg, e, call, MAIN_SQL_MAX, |CapturedParams(call)|)
    requires HoleFrom(call) <= HoleTo(call) <= |seg|
             && seg[HoleFrom(call)..HoleTo(call)] == CapturedSql(call)[MAIN_SQL_MAX..]
    ensures Building(seg, e, call, |CapturedSql(call)|, |CapturedParams(call)|)
  {
    hide Field, HasFlag, Names, CapturedSql, CapturedParams, FullSql, FullParams, NamesLen, SegmentOk;
    var sql, at := CapturedSql(call), PAYLOAD + |Names(call)|;
    assert seg[at..at + |sql|] == seg[at..at + MAIN_SQL_MAX] + seg[at + MAIN_SQL_MAX..at + |sql|];
    assert sql[..|sql|] == sql[..MAIN_SQL_MAX] + sql[MAIN_SQL_MAX..];
  }

  lemma WholeHole(out: bytes, e: bytes, call: AuditCall, ip: bytes)
    requires call.Readable() && HasHeader(e) && WholeRecord(out, e, call, ip) && MAIN_SQL_MAX <= |CapturedSql(call)|
    ensures HoleTo(call) <= |out| && out[HoleFrom(call)..HoleTo(call)] == CapturedSql(call)[MAIN_SQL_MAX..]
  {
    hide Field, HasFlag, Names, CapturedSql, CapturedParams, KeptField, ValidRecord, CompactSizeValid;
    var names, sql, params := Names(call), CapturedSql(call), CapturedParams(call);
    var payload := names + sql + params;
    assert out[PAYLOAD..] == payload;
    assert out[PAYLOAD..|out|] == out[PAYLOAD..];
    SliceOfSlice(out, PAYLOAD, |out|, HoleFrom(call), HoleTo(call));
    assert payload[|names| + MAIN_SQL_MAX..|names| + |sql|] == sql[MAIN_SQL_MAX..];
  }

  /** The tail alone completes an event. When the SQL fragment was lost and the params fragment arrives, the
    * agent still submits one record marked complete; in place of the lost piece it carries whatever the
    * allocator's memory held before. The record is the whole event if and only if that happens to be the piece. */
  lemma LostSqlFragment(a: Agent, own: seq<Input>, call: AuditCall, e: bytes, q: nat, n: nat, paramsSeq: nat)
    requires AgentOk(a) && |own| == 2 && forall i :: 0 <= i < |own| ==> InputOk(own[i])
    requires call.Readable() && BothLong(call) && MainImage(e, call, q, n) && HasHeader(e)
    requires own[0].record == EventRecord(e) && own[0].grant.Granted?
    requires own[1].record == FragmentOf(ParamsValue, call.params.Text(), MAIN_PARAMS_MAX, q, paramsSeq, 0)
    ensures var (b, out) := Run(a, own);
            var memory := own[0].grant.memory;
            && |out| == 1 && out[0].key == q && HoleFrom(call) <= HoleTo(call) <= |out[0].record|
               && HoleTo(call) <= |memory|
            && out[0].record[HoleFrom(call)..HoleTo(call)] == memory[HoleFrom(call)..HoleTo(call)]
            && HasHeader(out[0].record) && HasFlag(Field(out[0].record, RECORD_FLAGS, 2), LOGICAL_COMPLETE)
            && (WholeRecord(out[0].record, e, call, a.serverIp)
                <==> memory[HoleFrom(call)..HoleTo(call)] == CapturedSql(call)[MAIN_SQL_MAX..])
  {
    hide MainImage, WholeRecord, Building, FragmentOf, StoreMain, CapturedSql, CapturedParams, Names, Merged, HasFlag;
    hide HandleEvent, AgentOk, Field, LengthsFit, FirstSql, FirstParams, MainVerdict, FragmentVerdict, FullSize;
    hide UserString.Text, Splice;
    AgentIp(a);
    var memory := own[0].grant.memory;
    MainBuilds(memory, e, call, q, n, a.serverIp);
    var seg := StoreMain(memory, e);
    FirstPieces(call);
    BuildingRoom(seg, e, call, |FirstSql(call)|, |FirstParams(call)|);
    MainLeavesHole(memory, e, call, q, n);
    FirstLengths(call);
    StepKeeps(a, own[0], seg);
    RunFirst(a, own);
    var b := HandleEvent(a, own[0]).0;
    var filled := ParamsBuilds(seg, e, call, MAIN_SQL_MAX, q, paramsSeq, a.serverIp);
    FragmentKey(ParamsValue, call.params.Text(), MAIN_PARAMS_MAX, q, paramsSeq, 0);
    StepCompletes(b, own[1..][0], Merged(filled, a.serverIp));
    RunFirst(b, own[1..]);
    assert own[1..][1..] == [];
    HoleDecides(filled, e, call, a.serverIp, q, n);
    SpliceLater(seg, call);
  }

  lemma BuildingRoom(seg: bytes, e: bytes, call: AuditCall, sqlHave: nat, paramsHave: nat)
    requires call.Readable() && HasHeader(e) && Building(seg, e, call, sqlHave, paramsHave)
    ensures HoleTo(call) + |CapturedParams(call)| <= |seg|
  {
    hide Names, CapturedSql, CapturedParams, Field;
  }

  /** The params fragment lies behind the hole. */
  lemma SpliceLater(seg: bytes, call: AuditCall)
    requires call.Readable() && HoleFrom(call) <= HoleTo(call)
    requires HoleTo(call) + |CapturedParams(call)| <= |seg| && MAIN_PARAMS_MAX <= |CapturedParams(call)|
    ensures Splice(seg, HoleTo(call) + MAIN_PARAMS_MAX,
                   CapturedParams(call)[MAIN_PARAMS_MAX..])[HoleFrom(call)..HoleTo(call)]
         == seg[HoleFrom(call)..HoleTo(call)]
  {
    hide Names, CapturedSql, CapturedParams, Splice;
    SpliceKeeps(seg, HoleTo(call) + MAIN_PARAMS_MAX, CapturedParams(call)[MAIN_PARAMS_MAX..], HoleFrom(call),
                HoleTo(call));
  }

  // Any loss, any interleaving.

  /** No fragment was lost; the last one was not. */
  predicate AllKept(call: AuditCall, sqlRoom: bool, paramsRoom: bool)
    requires call.Readable()
  {
    (LongSql(call) ==> sqlRoom) && (LongParams(call) ==> paramsRoom)
  }

  predicate TailKept(call: AuditCall, sqlRoom: bool, paramsRoom: bool)
    requires call.Readable()
  {
    if LongParams(call) then paramsRoom else sqlRoom
  }

  function Kept(call: AuditCall, q: Numbers, sqlRoom: bool, paramsRoom: bool): seq<KernelRecord>
    requires call.Readable()
  {
    Surviving(Fragments(call, q.main, q.sql, q.params), sqlRoom, paramsRoom)
  }

  lemma KeptAre(call: AuditCall, q: Numbers, sqlRoom: bool, paramsRoom: bool)
    requires call.Readable()
    ensures var sql, params := call.sql.Text(), call.params.Text();
            Kept(call, q, sqlRoom, paramsRoom)
            == (if LongSql(call) && sqlRoom then
                  [FragmentOf(QuerySql, sql, MAIN_SQL_MAX, q.main, q.sql, if LongParams(call) then q.params else 0)]
                  else [])
               + (if LongParams(call) && paramsRoom then
                    [FragmentOf(ParamsValue, params, MAIN_PARAMS_MAX, q.main, q.params, 0)] else [])
    ensures AllKept(call, sqlRoom, paramsRoom) ==>
              Kept(call, q, sqlRoom, paramsRoom) == Fragments(call, q.main, q.sql, q.params)
  {
    hide FragmentOf, UserString.Text;
    SurvivingFragments(call, q.main, q.sql, q.params, sqlRoom, paramsRoom);
  }

  /** Of the records of the event with the numbers `q` the main record reaches the agent, and such fragments as found
    * room in the ring; between them lie any records of other events. */
  ghost predicate Reaches(xs: seq<Input>, call: AuditCall, e: bytes, q: Numbers, n: nat, sqlRoom: bool,
                          paramsRoom: bool)
  {
    && (forall i :: 0 <= i < |xs| ==> InputOk(xs[i]))
    && call.Readable() && LongCall(call) && MainImage(e, call, q.main, n) && HasHeader(e)
       && (LongParams(call) ==> q.params > 0)
    && RecordsOf(OwnInputs(xs, q.main)) == [EventRecord(e)] + Kept(call, q, sqlRoom, paramsRoom)
  }

  lemma ReachesMeans(xs: seq<Input>, call: AuditCall, e: bytes, q: Numbers, n: nat, sqlRoom: bool, paramsRoom: bool)
    requires Reaches(xs, call, e, q, n, sqlRoom, paramsRoom)
    ensures (forall i :: 0 <= i < |xs| ==> InputOk(xs[i])) && call.Readable() && LongCall(call) && HasHeader(e)
  {
    hide InputOk, LongCall, Kept;
  }

  /** The fragment's place in the segment, by the header alone: it begins behind the names, a params fragment also
    * behind the room that the header keeps for the SQL. */
  function FragmentEnd(e: bytes, f: KernelRecord): nat
    requires HasHeader(e) && f.FragmentRecord?
  {
    PAYLOAD + NamesLen(e) + (if f.field == QuerySql then 0 else FullSql(e)) + f.fragmentOffset + f.payloadLen
  }

  /** A fragment as the probe makes them. */
  predicate ProbeFragment(f: KernelRecord)
  {
    && f.FragmentRecord? && f.field != NoField && f.payloadLen == |f.payload| <= FRAGMENT_PAYLOAD_MAX
    && f.totalSize == FRAGMENT_HEADER + f.payloadLen && (f.nextSeq != 0 ==> !HasFlag(f.recordFlags, LAST_FRAGMENT))
  }

  lemma FragmentOfIs(field: FragmentField, text: bytes, first: nat, q: nat, ownSeq: nat, nextSeq: nat)
    requires field != NoField && 0 < first < |text| && first < CAPTURE_MAX
    ensures var f := FragmentOf(field, text, first, q, ownSeq, nextSeq);
            && ProbeFragment(f) && KeyOf(f) == q && f.nextSeq == nextSeq && f.field == field
            && f.fragmentOffset + f.payloadLen == |Cut(text, CAPTURE_MAX)|
  {
  }

  /** What a fragment does to the segment of its event depends on the sizes alone. */
  lemma FragmentGoes(seg: bytes, f: KernelRecord, e: bytes, ip: bytes)
    requires ProbeFragment(f) && SegmentOk(seg) && HasHeader(e) && seg[..PAYLOAD] == e[..PAYLOAD] && |ip| == MAX_IP_LEN
    ensures match FragmentVerdict(Some(seg), f, ip)
            case Keep(t) => FragmentEnd(e, f) <= |seg| && f.nextSeq != 0 && |t| == |seg| && SegmentOk(t)
            && t[..PAYLOAD] == e[..PAYLOAD]
            case Complete(_) => FragmentEnd(e, f) <= |seg| && f.nextSeq == 0
            case Lose(drop) => FragmentEnd(e, f) > |seg| && drop
            case _ => false
  {
    hide Field, HasFlag, FullSql, FullParams, NamesLen, Merged;
    SameFields(e, seg);
    var at := PAYLOAD + NamesLen(seg) + (if f.field == QuerySql then 0 else FullSql(seg)) + f.fragmentOffset;
    if at + f.payloadLen <= |seg| {
      var filled := Splice(seg, at, f.payload[..f.payloadLen]);
      assert filled[..PAYLOAD] == seg[..PAYLOAD];
      SameFields(e, filled);
    }
  }

  lemma StepLoses(a: Agent, i: Input)
    requires AgentOk(a) && InputOk(i)
    requires VerdictOf(i.record, PendingOf(a, KeyOf(i.record)), i.grant, a.serverIp) == Lose(true)
    ensures var (b, out) := HandleEvent(a, i);
            out == [] && PendingOf(b, KeyOf(i.record)) == None && b.serverIp == a.serverIp
  {
    hide VerdictOf;
  }

  /** Fragments without a segment submit nothing. */
  lemma {:induction false} Silent(a: Agent, own: seq<Input>, q: nat)
    requires AgentOk(a) && PendingOf(a, q) == None
    requires forall i :: 0 <= i < |own| ==>
               InputOk(own[i]) && own[i].record.FragmentRecord? && KeyOf(own[i].record) == q
    ensures Run(a, own).1 == []
    decreases |own|
  {
    hide FragmentVerdict, SegmentOk;
    if own != [] {
      AgentIp(a);
      NoSegment(own[0].record, a.serverIp);
      RunFirst(a, own);
      Silent(HandleEvent(a, own[0]).0, own[1..], q);
    }
  }

  /** The fragments in order, of which only the last may be a tail: one submission if all fit and there is a tail. */
  ghost predicate Chain(own: seq<Input>, q: nat)
  {
    forall i :: 0 <= i < |own| ==>
      InputOk(own[i]) && ProbeFragment(own[i].record) && KeyOf(own[i].record) == q
      && (own[i].record.nextSeq == 0 ==> i == |own| - 1)
  }

  predicate AllFit(own: seq<Input>, e: bytes, size: nat)
    requires HasHeader(e)
  {
    forall i :: 0 <= i < |own| ==> own[i].record.FragmentRecord? && FragmentEnd(e, own[i].record) <= size
  }

  predicate EndsInTail(own: seq<Input>)
  {
    own != [] && own[|own| - 1].record.FragmentRecord? && own[|own| - 1].record.nextSeq == 0
  }

  lemma {:induction false} ChainDecides(a: Agent, own: seq<Input>, e: bytes, q: nat, seg: bytes)
    requires AgentOk(a) && HasHeader(e) && Chain(own, q) && PendingOf(a, q) == Some(seg)
             && seg[..PAYLOAD] == e[..PAYLOAD]
    ensures var out := Run(a, own).1;
            if EndsInTail(own) && AllFit(own, e, |seg|) then |out| == 1 && out[0].key == q else out == []
    decreases |own|
  {
    hide FragmentVerdict, SegmentOk, ProbeFragment, FragmentEnd, HandleEvent, InputOk;
    if own != [] {
      var rest, f := own[1..], own[0].record;
      AgentIp(a);
      PendingOk(a, q);
      IsFragment(f);
      FragmentGoes(seg, f, e, a.serverIp);
      RunFirst(a, own);
      var b := HandleEvent(a, own[0]).0;
      assert Chain(rest, q);
      match FragmentVerdict(Some(seg), f, a.serverIp) {
        case Keep(t) =>
          StepKeeps(a, own[0], t);
          ChainDecides(b, rest, e, q, t);
          FitHead(own, e, |seg|);
        case Complete(record) =>
          StepCompletes(a, own[0], record);
          assert rest == [];
          FitHead(own, e, |seg|);
        case Lose(_) =>
          StepLoses(a, own[0]);
          ChainSilent(b, rest, q);
        case _ =>
      }
    }
  }

  lemma PendingOk(a: Agent, q: nat)
    requires AgentOk(a) && PendingOf(a, q).Some?
    ensures SegmentOk(PendingOf(a, q).value)
  {
  }

  lemma IsFragment(f: KernelRecord)
    requires ProbeFragment(f)
    ensures f.FragmentRecord? && f.payloadLen <= |f.payload|
  {
  }

  lemma FitHead(own: seq<Input>, e: bytes, size: nat)
    requires HasHeader(e) && own != [] && own[0].record.FragmentRecord?
    ensures AllFit(own, e, size) <==> FragmentEnd(e, own[0].record) <= size && AllFit(own[1..], e, size)
    ensures |own| > 1 ==> (EndsInTail(own) <==> EndsInTail(own[1..]))
  {
    hide FragmentEnd;
    if AllFit(own[1..], e, size) && FragmentEnd(e, own[0].record) <= size {
      forall i | 0 <= i < |own|
        ensures own[i].record.FragmentRecord? && FragmentEnd(e, own[i].record) <= size
      {
        assert i > 0 ==> own[i] == own[1..][i - 1];
      }
    }
  }

  lemma ChainSilent(a: Agent, own: seq<Input>, q: nat)
    requires AgentOk(a) && PendingOf(a, q) == None && Chain(own, q)
    ensures Run(a, own).1 == []
  {
    hide InputOk, KeyOf;
    Silent(a, own, q);
  }

  /** A main record that gets its segment submits nothing yet. */
  lemma MainPends(a: Agent, own: seq<Input>, call: AuditCall, e: bytes, q: nat, n: nat) returns (b: Agent, seg: bytes)
    requires AgentOk(a) && own != [] && forall i :: 0 <= i < |own| ==> InputOk(own[i])
    requires call.Readable() && LongCall(call) && MainImage(e, call, q, n) && HasHeader(e)
    requires own[0].record == EventRecord(e) && own[0].grant.Granted?
    ensures AgentOk(b) && PendingOf(b, q) == Some(seg) && |seg| == |own[0].grant.memory|
            && seg[..PAYLOAD] == e[..PAYLOAD]
    ensures Run(a, own).1 == Run(b, own[1..]).1
  {
    hide MainImage, StoreMain, AgentOk, Field, FullSql, FullParams, HasFlag, CompactSizeValid, Fragmented, NamesLen;
    hide HandleEvent;
    hide UserString.Text, Names;
    AgentIp(a);
    ImageSizes(e, call, q, n);
    ImageReceived(e, call, q, n);
    seg := StoreMain(own[0].grant.memory, e);
    StoredMainOk(own[0].grant.memory, e);
    StepKeeps(a, own[0], seg);
    RunFirst(a, own);
    b := HandleEvent(a, own[0]).0;
  }

  /** Of a call both of whose fields are long, only the tail arrives. */
  lemma OnlySqlLost(own: seq<Input>, call: AuditCall, e: bytes, q: Numbers, sqlRoom: bool, paramsRoom: bool)
    requires call.Readable() && LongCall(call) && LengthsFit(call)
    requires TailKept(call, sqlRoom, paramsRoom) && !AllKept(call, sqlRoom, paramsRoom)
    requires RecordsOf(own) == [EventRecord(e)] + Kept(call, q, sqlRoom, paramsRoom)
    ensures BothLong(call) && |own| == 2 && own[0].record == EventRecord(e)
    ensures own[1].record == FragmentOf(ParamsValue, call.params.Text(), MAIN_PARAMS_MAX, q.main, q.params, 0)
  {
    hide FragmentOf, UserString.Text, LengthsFit, Kept;
    KeptAre(call, q, sqlRoom, paramsRoom);
    assert own[0].record == RecordsOf(own)[0] && own[1].record == RecordsOf(own)[1];
  }

  lemma OneOwn(out: seq<Submission>, q: nat)
    requires |out| == 1 && out[0].key == q
    ensures OwnSubmissions(out, q) == out
  {
    assert out[1..] == [];
  }

  /** The run submits the event once, and whole. */
  ghost predicate OnceWhole(a: Agent, xs: seq<Input>, call: AuditCall, e: bytes, q: nat)
    requires AgentOk(a) && call.Readable() && HasHeader(e) && forall i :: 0 <= i < |xs| ==> InputOk(xs[i])
  {
    var out := OwnSubmissions(Run(a, xs).1, q);
    |out| == 1 && WholeRecord(out[0].record, e, call, a.serverIp)
  }

  /** The fragments that arrive have room in a segment of the given size. Where the cut leaves the lengths as they are,
    * they always have (`FitsAlways`). */
  predicate Fits(call: AuditCall, e: bytes, size: nat, sqlRoom: bool, paramsRoom: bool)
    requires call.Readable() && HasHeader(e)
  {
    && (LongSql(call) && sqlRoom ==> PAYLOAD + |Names(call)| + |CapturedSql(call)| <= size)
    && (LongParams(call) && paramsRoom ==> PAYLOAD + |Names(call)| + FullSql(e) + |CapturedParams(call)| <= size)
  }

  lemma FitsAlways(call: AuditCall, e: bytes, q: nat, n: nat, memory: bytes, sqlRoom: bool, paramsRoom: bool)
    requires call.Readable() && MainImage(e, call, q, n) && HasHeader(e) && LengthsFit(call)
    requires GrantOk(EventRecord(e), Granted(memory))
    ensures Fits(call, e, |memory|, sqlRoom, paramsRoom)
  {
    hide Field, Names, HasFlag, FullSql, FullParams, NamesLen, MainImage, CapturedSql, CapturedParams, UserString.Text;
    ImageSizes(e, call, q, n);
    FittingSizes(call);
  }

  lemma ChainCons(x: Input, rest: seq<Input>, e: bytes, q: nat, size: nat)
    requires HasHeader(e) && InputOk(x) && ProbeFragment(x.record) && KeyOf(x.record) == q && Chain(rest, q)
    requires x.record.nextSeq == 0 ==> rest == []
    ensures Chain([x] + rest, q) && x.record.FragmentRecord?
    ensures AllFit([x] + rest, e, size) <==> FragmentEnd(e, x.record) <= size && AllFit(rest, e, size)
    ensures EndsInTail([x] + rest) <==> if rest == [] then x.record.nextSeq == 0 else EndsInTail(rest)
  {
    hide InputOk, ProbeFragment, KeyOf, FragmentEnd;
    IsFragment(x.record);
    var own := [x] + rest;
    assert own[0] == x && own[1..] == rest;
    FitHead(own, e, size);
    forall i | 0 <= i < |own|
      ensures InputOk(own[i]) && ProbeFragment(own[i].record) && KeyOf(own[i].record) == q
      ensures own[i].record.FragmentRecord? && (own[i].record.nextSeq == 0 ==> i == |own| - 1)
    {
      if i > 0 {
        assert own[i] == rest[i - 1];
        IsFragment(rest[i - 1].record);
      }
    }
  }

  lemma ChainNone(e: bytes, q: nat, size: nat)
    requires HasHeader(e)
    ensures Chain([], q) && AllFit([], e, size) && !EndsInTail([])
  {
  }

  /** Where the two fragments of a call end. */
  lemma FragmentEnds(call: AuditCall, e: bytes, q: Numbers, n: nat, next: nat)
    requires call.Readable() && MainImage(e, call, q.main, n) && HasHeader(e)
    ensures LongSql(call) ==>
              var f := FragmentOf(QuerySql, call.sql.Text(), MAIN_SQL_MAX, q.main, q.sql, next);
              && ProbeFragment(f) && KeyOf(f) == q.main && f.nextSeq == next
              && FragmentEnd(e, f) == PAYLOAD + |Names(call)| + |CapturedSql(call)|
    ensures LongParams(call) ==>
              var f := FragmentOf(ParamsValue, call.params.Text(), MAIN_PARAMS_MAX, q.main, q.params, 0);
              && ProbeFragment(f) && KeyOf(f) == q.main && f.nextSeq == 0
              && FragmentEnd(e, f) == PAYLOAD + |Names(call)| + FullSql(e) + |CapturedParams(call)|
  {
    hide FragmentOf, MainImage, Names, UserString.Text, NamesLen, FullSql, FullParams, KeyOf, Field, CapturedSql;
    hide CapturedParams, ProbeFragment, Fragmented, CompactSizeValid;
    ImageSizes(e, call, q.main, n);
    CapturedLengths(call);
    if LongSql(call) {
      FragmentOfIs(QuerySql, call.sql.Text(), MAIN_SQL_MAX, q.main, q.sql, next);
      var f := FragmentOf(QuerySql, call.sql.Text(), MAIN_SQL_MAX, q.main, q.sql, next);
      IsFragment(f);
    }
    if LongParams(call) {
      FragmentOfIs(ParamsValue, call.params.Text(), MAIN_PARAMS_MAX, q.main, q.params, 0);
      var f := FragmentOf(ParamsValue, call.params.Text(), MAIN_PARAMS_MAX, q.main, q.params, 0);
      IsFragment(f);
    }
  }

  /** The own records behind the main one, as a chain. */
  lemma KeptChain(own: seq<Input>, call: AuditCall, e: bytes, q: Numbers, n: nat, sqlRoom: bool, paramsRoom: bool,
                  size: nat)
    requires call.Readable() && LongCall(call) && MainImage(e, call, q.main, n) && HasHeader(e)
             && (LongParams(call) ==> q.params > 0)
    requires (forall i :: 0 <= i < |own| ==> InputOk(own[i]))
    requires RecordsOf(own) == Kept(call, q, sqlRoom, paramsRoom)
    ensures Chain(own, q.main) && (EndsInTail(own) <==> TailKept(call, sqlRoom, paramsRoom))
    ensures AllFit(own, e, size) <==> Fits(call, e, size, sqlRoom, paramsRoom)
  {
    hide FragmentOf, InputOk, MainImage, Names, UserString.Text, NamesLen, FullSql, Kept, KeyOf, CapturedSql;
    hide CapturedParams, ProbeFragment, FragmentEnd, Chain, AllFit, EndsInTail;
    KeptAre(call, q, sqlRoom, paramsRoom);
    var next := if LongParams(call) then q.params else 0;
    FragmentEnds(call, e, q, n, next);
    ChainNone(e, q.main, size);
    var kept := Kept(call, q, sqlRoom, paramsRoom);
    assert |own| == |kept| && forall i :: 0 <= i < |own| ==> own[i].record == kept[i];
    var rest := [];
    if LongParams(call) && paramsRoom {
      rest := [own[|own| - 1]];
      ChainCons(own[|own| - 1], [], e, q.main, size);
      assert rest == [own[|own| - 1]] + [];
    }
    if LongSql(call) && sqlRoom {
      ChainCons(own[0], rest, e, q.main, size);
      assert own == [own[0]] + rest;
    } else {
      assert own == rest;
    }
  }

  lemma CapturedLengths(call: AuditCall)
    requires call.Readable()
    ensures CapturedSql(call) == Cut(call.sql.Text(), CAPTURE_MAX)
            && CapturedParams(call) == Cut(call.params.Text(), CAPTURE_MAX)
  {
  }

  /** In any interleaving, whatever of its fragments is lost: an event that got its segment is submitted exactly once
    * if its tail arrives and the fragments that arrive have room, and not at all otherwise. */
  lemma TailDecides(a: Agent, xs: seq<Input>, call: AuditCall, e: bytes, q: Numbers, n: nat, sqlRoom: bool,
                    paramsRoom: bool)
    requires AgentOk(a) && Reaches(xs, call, e, q, n, sqlRoom, paramsRoom) && OwnInputs(xs, q.main)[0].grant.Granted?
    ensures var size := |OwnInputs(xs, q.main)[0].grant.memory|;
            |OwnSubmissions(Run(a, xs).1, q.main)|
            == if TailKept(call, sqlRoom, paramsRoom) && Fits(call, e, size, sqlRoom, paramsRoom) then 1 else 0
    ensures LengthsFit(call) ==> Fits(call, e, |OwnInputs(xs, q.main)[0].grant.memory|, sqlRoom, paramsRoom)
  {
    hide MainImage, AgentOk, InputOk, LengthsFit, UserString.Text, Kept, Fits, AllFit, Chain, EndsInTail, LongCall;
    hide OwnInputs;
    var own := OwnInputs(xs, q.main);
    Projection(a, a, xs, q.main);
    assert own[0].record == RecordsOf(own)[0];
    var b, seg := MainPends(a, own, call, e, q.main, n);
    assert RecordsOf(own[1..]) == RecordsOf(own)[1..] == Kept(call, q, sqlRoom, paramsRoom);
    KeptChain(own[1..], call, e, q, n, sqlRoom, paramsRoom, |seg|);
    ChainDecides(b, own[1..], e, q.main, seg);
    if Run(b, own[1..]).1 != [] {
      OneOwn(Run(a, own).1, q.main);
    }
    GrantFits(own[0], e);
    if LengthsFit(call) {
      FitsAlways(call, e, q.main, n, own[0].grant.memory, sqlRoom, paramsRoom);
    }
  }

  lemma GrantFits(i: Input, e: bytes)
    requires InputOk(i) && i.record == EventRecord(e) && i.grant.Granted?
    ensures GrantOk(EventRecord(e), Granted(i.grant.memory))
  {
    hide GrantOk, RecordOk;
  }

  /** If only the SQL fragment of an event is lost, the record that is submitted is marked complete and has in place of
    * the lost piece what the memory held before, in any interleaving. */
  lemma GapShowsMemory(a: Agent, xs: seq<Input>, call: AuditCall, e: bytes, q: Numbers, n: nat, sqlRoom: bool,
                       paramsRoom: bool)
    requires AgentOk(a) && Reaches(xs, call, e, q, n, sqlRoom, paramsRoom) && LengthsFit(call)
    requires OwnInputs(xs, q.main)[0].grant.Granted?
    requires TailKept(call, sqlRoom, paramsRoom) && !AllKept(call, sqlRoom, paramsRoom)
    ensures var memory, out := OwnInputs(xs, q.main)[0].grant.memory, OwnSubmissions(Run(a, xs).1, q.main);
            && |out| == 1 && HoleFrom(call) < HoleTo(call) <= |out[0].record| && HoleTo(call) <= |memory|
            && out[0].record[HoleFrom(call)..HoleTo(call)] == memory[HoleFrom(call)..HoleTo(call)]
            && HasHeader(out[0].record) && HasFlag(Field(out[0].record, RECORD_FLAGS, 2), LOGICAL_COMPLETE)
  {
    hide MainImage, WholeRecord, FragmentOf, AgentOk, InputOk, LengthsFit, UserString.Text, Fragments, BothLong;
    hide CapturedSql;
    hide Kept, HoleFrom, HoleTo, HasFlag, Field;
    var own := OwnInputs(xs, q.main);
    Projection(a, a, xs, q.main);
    OnlySqlLost(own, call, e, q, sqlRoom, paramsRoom);
    LostSqlFragment(a, own, call, e, q.main, n, q.params);
    OneOwn(Run(a, own).1, q.main);
    LongCaptured(call);
  }

  /** When an event that got its segment is submitted once and whole: if nothing was lost; or if the tail came and the
    * memory happened to hold the lost piece; never if the cut changes its lengths. */
  lemma WholeInMemory(a: Agent, xs: seq<Input>, call: AuditCall, e: bytes, q: Numbers, n: nat, sqlRoom: bool,
                      paramsRoom: bool)
    requires AgentOk(a) && Reaches(xs, call, e, q, n, sqlRoom, paramsRoom) && OwnInputs(xs, q.main)[0].grant.Granted?
    ensures var memory := OwnInputs(xs, q.main)[0].grant.memory;
            OnceWhole(a, xs, call, e, q.main) <==>
            && LengthsFit(call) && TailKept(call, sqlRoom, paramsRoom)
            && (AllKept(call, sqlRoom, paramsRoom)
                || (MAIN_SQL_MAX <= |CapturedSql(call)| && HoleTo(call) <= |memory|
                    && memory[HoleFrom(call)..HoleTo(call)] == CapturedSql(call)[MAIN_SQL_MAX..]))
  {
    hide MainImage, WholeRecord, FragmentOf, AgentOk, InputOk, LengthsFit, UserString.Text, Fragments, CapturedSql;
    hide SizedLike, Kept;
    hide HoleFrom, HoleTo, BothLong;
    var own := OwnInputs(xs, q.main);
    if LengthsFit(call) {
      TailDecides(a, xs, call, e, q, n, sqlRoom, paramsRoom);
      if AllKept(call, sqlRoom, paramsRoom) {
        KeptAre(call, q, sqlRoom, paramsRoom);
        RoundTrip.RoundTrip(a, xs, call, e, q.main, n, q.sql, q.params);
      } else if TailKept(call, sqlRoom, paramsRoom) {
        Projection(a, a, xs, q.main);
        OnlySqlLost(own, call, e, q, sqlRoom, paramsRoom);
        LostSqlFragment(a, own, call, e, q.main, n, q.params);
        OneOwn(Run(a, own).1, q.main);
        LongCaptured(call);
      }
    } else if OnceWhole(a, xs, call, e, q.main) {
      Projection(a, a, xs, q.main);
      KeptOwn(own, call, e, q, sqlRoom, paramsRoom);
      OwnRunSized(a, own, call, e, q.main, n);
      OwnOfRun(Run(a, own).1, q.main);
      SizedNotWhole(OwnSubmissions(Run(a, xs).1, q.main)[0].record, e, call, a.serverIp, q.main, n);
    }
  }

  lemma LongCaptured(call: AuditCall)
    requires call.Readable() && BothLong(call)
    ensures MAIN_SQL_MAX < |CapturedSql(call)| && HoleFrom(call) < HoleTo(call)
  {
    hide UserString.Text, Names, LengthsFit;
  }

  lemma KeptOwn(own: seq<Input>, call: AuditCall, e: bytes, q: Numbers, sqlRoom: bool, paramsRoom: bool)
    requires call.Readable() && RecordsOf(own) == [EventRecord(e)] + Kept(call, q, sqlRoom, paramsRoom)
    ensures own != [] && own[0].record == EventRecord(e)
    ensures forall i :: 1 <= i < |own| ==> own[i].record.FragmentRecord? && KeyOf(own[i].record) == q.main
  {
    hide FragmentOf, Kept, UserString.Text;
    KeptAre(call, q, sqlRoom, paramsRoom);
    assert own[0].record == RecordsOf(own)[0];
    forall i | 1 <= i < |own|
      ensures own[i].record.FragmentRecord? && KeyOf(own[i].record) == q.main
    {
      assert own[i].record == RecordsOf(own)[i] == Kept(call, q, sqlRoom, paramsRoom)[i - 1];
      if LongSql(call) {
        FragmentKey(QuerySql, call.sql.Text(), MAIN_SQL_MAX, q.main, q.sql, if LongParams(call) then q.params else 0);
      }
      if LongParams(call) {
        FragmentKey(ParamsValue, call.params.Text(), MAIN_PARAMS_MAX, q.main, q.params, 0);
      }
    }
  }

  // Whatever the memory.

  /** The same inputs, but the allocator answers the event's main record with other memory. */
  function Regrant(xs: seq<Input>, e: bytes, memory: bytes): (ys: seq<Input>)
    requires GrantOk(EventRecord(e), Granted(memory))
    ensures |ys| == |xs| && ((forall i :: 0 <= i < |xs| ==> InputOk(xs[i])) ==>
                             forall i :: 0 <= i < |ys| ==> InputOk(ys[i]))
    ensures forall i :: 0 <= i < |xs| ==>
              ys[i] == (if xs[i].record == EventRecord(e) then xs[i].(grant := Granted(memory)) else xs[i])
  {
    seq(|xs|, i requires 0 <= i < |xs| => if xs[i].record == EventRecord(e) then xs[i].(grant := Granted(memory))
                                          else xs[i])
  }

  lemma {:induction false} RegrantOwn(xs: seq<Input>, e: bytes, memory: bytes, q: nat)
    requires GrantOk(EventRecord(e), Granted(memory)) && forall i :: 0 <= i < |xs| ==> InputOk(xs[i])
    ensures OwnInputs(Regrant(xs, e, memory), q) == Regrant(OwnInputs(xs, q), e, memory)
  {
    hide InputOk, KeyOf, GrantOk;
    if xs != [] {
      var ys := Regrant(xs, e, memory);
      assert ys[1..] == Regrant(xs[1..], e, memory);
      RegrantOwn(xs[1..], e, memory, q);
    }
  }

  lemma RegrantReaches(xs: seq<Input>, memory: bytes, call: AuditCall, e: bytes, q: Numbers, n: nat, sqlRoom: bool,
                       paramsRoom: bool)
    requires Reaches(xs, call, e, q, n, sqlRoom, paramsRoom) && GrantOk(EventRecord(e), Granted(memory))
    ensures Reaches(Regrant(xs, e, memory), call, e, q, n, sqlRoom, paramsRoom)
    ensures OwnInputs(Regrant(xs, e, memory), q.main)[0].grant == Granted(memory)
  {
    hide MainImage, InputOk, GrantOk, Kept;
    RegrantOwn(xs, e, memory, q.main);
    var own := OwnInputs(xs, q.main);
    assert RecordsOf(Regrant(own, e, memory)) == RecordsOf(own);
    assert own[0].record == RecordsOf(own)[0];
  }

  /** Memory that does not happen to hold the lost piece. */
  lemma OtherMemory(call: AuditCall, e: bytes) returns (memory: bytes)
    requires call.Readable() && HasHeader(e)
    ensures GrantOk(EventRecord(e), Granted(memory))
    ensures MAIN_SQL_MAX < |CapturedSql(call)| && HoleTo(call) <= |memory| ==>
              memory[HoleFrom(call)..HoleTo(call)] != CapturedSql(call)[MAIN_SQL_MAX..]
  {
    hide Field, Names, UserString.Text, FullSql, FullParams, CapturedSql;
    var b: byte := if MAIN_SQL_MAX < |CapturedSql(call)| && CapturedSql(call)[MAIN_SQL_MAX] == 0 then 1 else 0;
    memory := seq(FullSize(e), i => b);
    if MAIN_SQL_MAX < |CapturedSql(call)| && HoleTo(call) <= |memory| {
      assert memory[HoleFrom(call)..HoleTo(call)][0] == b;
    }
  }

  /** What it takes for an event to arrive whole, in any interleaving and after any loss of fragments: whatever memory
    * the allocator hands out, it is submitted once and whole, if and only if no fragment of it was lost and the
    * 32-bit cut leaves its lengths as they are. So a lost fragment is never made good, although a record marked
    * complete is still submitted when the tail arrives. */
  lemma WholeExact(a: Agent, xs: seq<Input>, call: AuditCall, e: bytes, q: Numbers, n: nat, sqlRoom: bool,
                   paramsRoom: bool)
    requires AgentOk(a) && Reaches(xs, call, e, q, n, sqlRoom, paramsRoom)
    ensures (forall memory :: GrantOk(EventRecord(e), Granted(memory)) ==>
               OnceWhole(a, Regrant(xs, e, memory), call, e, q.main))
            <==> LengthsFit(call) && AllKept(call, sqlRoom, paramsRoom)
  {
    hide MainImage, AgentOk, InputOk, LengthsFit, OnceWhole, HoleFrom, HoleTo, CapturedSql, LongCall, Reaches, GrantOk;
    ReachesMeans(xs, call, e, q, n, sqlRoom, paramsRoom);
    if LengthsFit(call) && AllKept(call, sqlRoom, paramsRoom) {
      forall memory | GrantOk(EventRecord(e), Granted(memory))
        ensures OnceWhole(a, Regrant(xs, e, memory), call, e, q.main)
      {
        RegrantReaches(xs, memory, call, e, q, n, sqlRoom, paramsRoom);
        WholeInMemory(a, Regrant(xs, e, memory), call, e, q, n, sqlRoom, paramsRoom);
        AllMeansTail(call, sqlRoom, paramsRoom);
      }
    } else {
      var memory := OtherMemory(call, e);
      RegrantReaches(xs, memory, call, e, q, n, sqlRoom, paramsRoom);
      WholeInMemory(a, Regrant(xs, e, memory), call, e, q, n, sqlRoom, paramsRoom);
      if LengthsFit(call) && TailKept(call, sqlRoom, paramsRoom) {
        LostIsLong(call, sqlRoom, paramsRoom);
        LongCaptured(call);
      }
      assert !OnceWhole(a, Regrant(xs, e, memory), call, e, q.main);
    }
  }

  lemma AllMeansTail(call: AuditCall, sqlRoom: bool, paramsRoom: bool)
    requires call.Readable() && LongCall(call) && AllKept(call, sqlRoom, paramsRoom)
    ensures TailKept(call, sqlRoom, paramsRoom)
  {
  }

  lemma LostIsLong(call: AuditCall, sqlRoom: bool, paramsRoom: bool)
    requires call.Readable() && LongCall(call) && LengthsFit(call)
    requires TailKept(call, sqlRoom, paramsRoom) && !AllKept(call, sqlRoom, paramsRoom)
    ensures BothLong(call)
  {
    hide LengthsFit, UserString.Text;
  }
}
