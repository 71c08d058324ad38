/** From the probe's own output to the agent's submission, for every call. */
module CaptureToSubmit {
  import opened Bytes
  import opened AuditRecord
  import opened Capture
  import opened Reassembly
  import opened RoundTrip

  /** The probe's records for a call that gets the numbers `q`, on a bucket with arbitrary old content. */
  function ProbeOutput(bucket: bytes, call: AuditCall, q: Numbers): seq<KernelRecord>
    requires call.Readable() && |bucket| == MAIN_BUCKET
  {
    [EventRecord(MainOf(bucket, call, q))] + Fragments(call, q.main, q.sql, q.params)
  }

  function MainOf(bucket: bytes, call: AuditCall, q: Numbers): bytes
    requires call.Readable() && |bucket| == MAIN_BUCKET
  {
    Built(bucket, call, q.main, NextOf(call, q.sql, q.params))
  }

  /** Numbers as the probe hands them out, whatever other CPUs take in between. */
  predicate Handed(call: AuditCall, q: Numbers)
    requires call.Readable()
  {
    q.main < U64 && (LongSql(call) ==> 0 < q.sql < U64) && (LongParams(call) ==> 0 < q.params < U64)
  }

  /** The same records as inputs: the allocator grants `memory` when it is asked. */
  function Inputs(records: seq<KernelRecord>, memory: bytes): (xs: seq<Input>)
    ensures |xs| == |records| && forall i :: 0 <= i < |xs| ==> xs[i] == Input(records[i], Granted(memory), true)
  {
    seq(|records|, i requires 0 <= i < |records| => Input(records[i], Granted(memory), true))
  }

  lemma {:induction false} AllOwn(xs: seq<Input>, q: nat)
    requires forall i :: 0 <= i < |xs| ==> InputOk(xs[i]) && KeyOf(xs[i].record) == q
    ensures OwnInputs(xs, q) == xs
  {
    hide InputOk, KeyOf;
    if xs != [] {
      AllOwn(xs[1..], q);
    }
  }

  /** The probe's output is always something the agent can be fed with. */
  lemma OutputFits(bucket: bytes, call: AuditCall, q: Numbers, memory: bytes)
    requires call.Readable() && LongCall(call) && |bucket| == MAIN_BUCKET && Handed(call, q)
    requires HasHeader(MainOf(bucket, call, q)) && PAYLOAD <= |memory| && FullSize(MainOf(bucket, call, q)) <= |memory|
    ensures var xs := Inputs(ProbeOutput(bucket, call, q), memory);
            forall i :: 0 <= i < |xs| ==> InputOk(xs[i]) && KeyOf(xs[i].record) == q.main
  {
    hide MainImage, Built, Field, FullSize, FragmentOf, UserString.Text, Fragments;
    var e, next := MainOf(bucket, call, q), NextOf(call, q.sql, q.params);
    BuiltIsImage(bucket, call, q.main, next);
    ImageSizes(e, call, q.main, next);
    ImageReceived(e, call, q.main, next);
    var fs := Fragments(call, q.main, q.sql, q.params);
    FragmentsOwn(call, q.main, q.sql, q.params);
    FragmentsFit(call, q.main, q.sql, q.params);
    var records := ProbeOutput(bucket, call, q);
    assert records == [EventRecord(e)] + fs;
    forall i | 0 <= i < |records|
      ensures InputOk(Input(records[i], Granted(memory), true)) && KeyOf(records[i]) == q.main
    {
      assert i > 0 ==> records[i] == fs[i - 1];
    }
  }

  lemma FragmentsFit(call: AuditCall, q: nat, sqlSeq: nat, paramsSeq: nat)
    requires call.Readable()
    ensures forall i :: 0 <= i < |Fragments(call, q, sqlSeq, paramsSeq)| ==>
              RecordOk(Fragments(call, q, sqlSeq, paramsSeq)[i])
  {
    hide UserString.Text, Cut;
  }

  /** For every readable call with a long field, whatever numbers it gets between those of other CPUs, whatever bucket
    * and segment memory held before: fed with the probe's output, any agent submits one record for the call,
    * and it is the whole event, if and only if the 32-bit cut of the lengths is harmless. */
  lemma EveryLongCall(a: Agent, bucket: bytes, call: AuditCall, q: Numbers, memory: bytes)
    requires AgentOk(a) && call.Readable() && LongCall(call) && |bucket| == MAIN_BUCKET && Handed(call, q)
    requires HasHeader(MainOf(bucket, call, q)) && PAYLOAD <= |memory| && FullSize(MainOf(bucket, call, q)) <= |memory|
    ensures var xs := Inputs(ProbeOutput(bucket, call, q), memory);
            && (forall i :: 0 <= i < |xs| ==> InputOk(xs[i]))
            && var out := OwnSubmissions(Run(a, xs).1, q.main);
               (|out| == 1 && WholeRecord(out[0].record, MainOf(bucket, call, q), call, a.serverIp)) <==>
                 LengthsFit(call)
  {
    hide MainImage, Built, Field, FullSize, Fragments, UserString.Text, WholeRecord, LengthsFit, InputOk, AgentOk;
    hide KeyOf, RoundTrip.LongCall;
    var e, next := MainOf(bucket, call, q), NextOf(call, q.sql, q.params);
    var records := ProbeOutput(bucket, call, q);
    var xs := Inputs(records, memory);
    OutputFits(bucket, call, q, memory);
    AllOwn(xs, q.main);
    BuiltIsImage(bucket, call, q.main, next);
    assert RecordsOf(xs) == records;
    RoundTripExact(a, xs, call, e, q.main, next, q.sql, q.params);
  }

  /** From the probe to the readers: what any agent submits for a call is read back as that call's names, SQL and
    * params, each under its own accessor. */
  lemma ReadersFind(a: Agent, bucket: bytes, call: AuditCall, q: Numbers, memory: bytes)
    requires AgentOk(a) && call.Readable() && LongCall(call) && |bucket| == MAIN_BUCKET && Handed(call, q)
    requires HasHeader(MainOf(bucket, call, q)) && PAYLOAD <= |memory| && FullSize(MainOf(bucket, call, q)) <= |memory|
    requires LengthsFit(call)
    ensures var xs := Inputs(ProbeOutput(bucket, call, q), memory);
            && (forall i :: 0 <= i < |xs| ==> InputOk(xs[i]))
            && var out := OwnSubmissions(Run(a, xs).1, q.main);
               && |out| == 1 && Readable(out[0].record)
               && UserNameOf(out[0].record) == UserName(call) && ProxyUserNameOf(out[0].record) == ProxyUserName(call)
               && TenantNameOf(out[0].record) == TenantName(call) && DbNameOf(out[0].record) == DbName(call)
               && QuerySqlOf(out[0].record) == CapturedSql(call) && ParamsOf(out[0].record) == CapturedParams(call)
  {
    hide MainImage, Built, Field, FullSize, Fragments, UserString.Text, WholeRecord, LengthsFit, InputOk, AgentOk;
    hide KeyOf, RoundTrip.LongCall, Readable, CapturedSql, CapturedParams;
    EveryLongCall(a, bucket, call, q, memory);
    var e, next := MainOf(bucket, call, q), NextOf(call, q.sql, q.params);
    BuiltIsImage(bucket, call, q.main, next);
    var out := OwnSubmissions(Run(a, Inputs(ProbeOutput(bucket, call, q), memory)).1, q.main);
    WholeReads(out[0].record, e, call, a.serverIp, q.main, next);
  }

  /** A statement of exactly 2^32 bytes. */
  function HugeCall(raw: bytes): (call: AuditCall)
    requires |raw| == RAW_SIZE
    ensures call.Readable() && |call.sql.Text()| == U32 && |call.params.Text()| == 0
  {
    var none := UserString(true, 0, []);
    AuditCall(none, none, none, none, UserString(false, U32, seq(U32, i => 0)), none, raw)
  }

  /** An event that does not come through although every record of it arrives: the cut makes the length of such a
    * statement zero. */
  lemma HugeCallBreaks(a: Agent, bucket: bytes, raw: bytes, q: Numbers, memory: bytes)
    requires AgentOk(a) && |raw| == RAW_SIZE && |bucket| == MAIN_BUCKET && Handed(HugeCall(raw), q)
    requires HasHeader(MainOf(bucket, HugeCall(raw), q))
    requires PAYLOAD <= |memory| && FullSize(MainOf(bucket, HugeCall(raw), q)) <= |memory|
    ensures var call := HugeCall(raw);
            var xs := Inputs(ProbeOutput(bucket, call, q), memory);
            && (forall i :: 0 <= i < |xs| ==> InputOk(xs[i]))
            && var out := OwnSubmissions(Run(a, xs).1, q.main);
               !(|out| == 1 && WholeRecord(out[0].record, MainOf(bucket, call, q), call, a.serverIp))
  {
    hide MainImage, MainOf, Built, Field, FullSize, Fragments, UserString.Text, WholeRecord, InputOk, AgentOk, KeyOf;
    hide ProbeOutput, HugeCall;
    EveryLongCall(a, bucket, HugeCall(raw), q, memory);
  }
}
