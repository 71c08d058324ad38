/** The collector's code path of one upload and of one task, as they run. */
module CollectorService {
  import opened Bytes
  import opened AuditRecord
  import opened RecordParser
  import opened Chunking
  import opened BoundedQueue
  import opened MongoSink
  import Collector

  const AUDIT_FILE_VERSION: nat := 7

  datatype Request = Request(serverIp: string, fileVersion: nat, recordCount: nat, records: bytes)

  datatype Status = VersionMismatch | DecodeError | QueueFull | Accepted

  datatype UploadReply = UploadReply(status: Status, acceptedRecords: nat, acceptedBytes: nat) {
    predicate Ok()
    {
      status.Accepted?
    }
  }

  /** An upload whose records were decoded. */
  datatype UploadTask = UploadTask(serverIp: string, events: seq<ParsedEvent>)

  class LossMetrics {
    var accepted: nat
    var rejected: nat
    var persisted: nat
    var dbRetryExhausted: nat

    constructor ()
      ensures accepted == rejected == persisted == dbRetryExhausted == 0
    {
      accepted, rejected, persisted, dbRetryExhausted := 0, 0, 0, 0;
    }

    method CountAccepted(records: nat)
      modifies this`accepted
      ensures accepted == old(accepted) + records
    {
      accepted := accepted + records;
    }

    method CountRejected(records: nat)
      modifies this`rejected
      ensures rejected == old(rejected) + records
    {
      rejected := rejected + records;
    }

    /** `on_mongo_insert_complete`. */
    method CountDone(records: nat, ok: bool)
      modifies this`persisted, this`dbRetryExhausted
      ensures persisted + dbRetryExhausted == old(persisted + dbRetryExhausted) + records
      ensures if ok then dbRetryExhausted == old(dbRetryExhausted) else persisted == old(persisted)
    {
      if ok {
        persisted := persisted + records;
      } else {
        dbRetryExhausted := dbRetryExhausted + records;
      }
    }

    /** The counters and their difference, modulo 2^64. With true counts it is the difference itself exactly
      * when no more is persisted or failed than was accepted. */
    method TakeSnapshot() returns (s: Collector.Metrics)
      requires accepted < U64 && persisted + dbRetryExhausted < U64
      ensures s == Collector.Report(accepted, rejected, persisted, dbRetryExhausted)
      ensures s.persisted + s.dbFailed + s.inflight == s.accepted <==> persisted + dbRetryExhausted <= accepted
      ensures persisted + dbRetryExhausted > accepted ==> s.persisted + s.dbFailed + s.inflight == s.accepted + U64
    {
      s := Collector.Metrics(accepted, rejected, persisted, dbRetryExhausted,
                             (accepted - persisted - dbRetryExhausted) % U64);
      if persisted + dbRetryExhausted > accepted {
        assert (accepted - persisted - dbRetryExhausted) % U64 == accepted - persisted - dbRetryExhausted + U64;
      }
    }
  }

  /** When an upload is well formed: known version, decodable records, and as many of them as announced. */
  predicate WellFormed(r: Request)
  {
    && r.fileVersion == AUDIT_FILE_VERSION
    && Parse(r.records).Parsed? && |Parse(r.records).events| == r.recordCount
  }

  class AuditCollectorService {
    const queue: BoundedMpmcQueue<UploadTask>
    const metrics: LossMetrics

    constructor (queue: BoundedMpmcQueue<UploadTask>, metrics: LossMetrics)
      ensures this.queue == queue && this.metrics == metrics
    {
      this.queue, this.metrics := queue, metrics;
    }

    /** One upload on its own. It is accepted if and only if it is well formed and the queue takes it; then
      * the reply acknowledges exactly the announced records, and just these are queued and counted. */
    method Upload(request: Request) returns (reply: UploadReply)
      modifies queue, metrics
      ensures reply.Ok() <==> WellFormed(request) && !old(queue.closed) && |old(queue.queue)| < queue.capacity
      ensures reply.Ok() ==>
                && reply.acceptedRecords == request.recordCount && reply.acceptedBytes == |request.records|
                && queue.queue == old(queue.queue) + [UploadTask(request.serverIp, Parse(request.records).events)]
                && metrics.accepted == old(metrics.accepted) + request.recordCount
      ensures !reply.Ok() ==> reply.acceptedRecords == 0 && queue.queue == old(queue.queue)
                              && metrics.accepted == old(metrics.accepted)
      ensures reply.status.QueueFull? <==> WellFormed(request) && !reply.Ok()
      ensures metrics.rejected == old(metrics.rejected) + (if reply.status.QueueFull? then request.recordCount else 0)
      ensures reply.status.VersionMismatch? <==> request.fileVersion != AUDIT_FILE_VERSION
      ensures queue.closed == old(queue.closed)
      ensures metrics.persisted == old(metrics.persisted) && metrics.dbRetryExhausted == old(metrics.dbRetryExhausted)
    {
      hide Parse;
      if request.fileVersion != AUDIT_FILE_VERSION {
        return UploadReply(VersionMismatch, 0, 0);
      }
      var parsed := ParseAuditRecords(request.records);
      if parsed.Rejected? || request.recordCount != |parsed.events| {
        return UploadReply(DecodeError, 0, 0);
      }
      var ok := queue.TryPush(UploadTask(request.serverIp, parsed.events));
      if !ok {
        metrics.CountRejected(|parsed.events|);
        return UploadReply(QueueFull, 0, 0);
      }
      metrics.CountAccepted(|parsed.events|);
      return UploadReply(Status.Accepted, |parsed.events|, |request.records|);
    }
  }

  /** The attempts of a worker at one task, from `attempt` on. */
  function Attempts(store: seq<Doc>, docs: seq<Doc>, sizes: seq<nat>, l: Limits, ordered: bool,
                    weather: nat -> nat -> Weather, attempt: nat): (seq<Doc>, bool)
    requires |sizes| == |docs| && attempt < Collector.ATTEMPTS
    decreases Collector.ATTEMPTS - attempt
  {
    var (after, ok) := InsertFrom(store, docs, sizes, l, ordered, weather(attempt), 0);
    if ok || attempt + 1 == Collector.ATTEMPTS then (after, ok)
    else Attempts(after, docs, sizes, l, ordered, weather, attempt + 1)
  }

  /** Whatever earlier attempts left behind, a task that ends well has all its documents' keys stored, no
    * key twice, nothing lost and nothing added but its own documents. */
  lemma {:induction false} AttemptsStore(store: seq<Doc>, docs: seq<Doc>, sizes: seq<nat>, l: Limits,
                                         weather: nat -> nat -> Weather, attempt: nat)
    requires |sizes| == |docs| && attempt < Collector.ATTEMPTS
    ensures var (after, ok) := Attempts(store, docs, sizes, l, false, weather, attempt);
            Grew(store, after, docs) && (UniqueKeys(store) ==> UniqueKeys(after)) && (ok ==> Stored(after, docs))
    decreases Collector.ATTEMPTS - attempt
  {
    hide InsertFrom, UniqueKeys, Stored;
    InsertFromKeeps(store, docs, sizes, l, false, weather(attempt), 0);
    var (mid, ok) := InsertFrom(store, docs, sizes, l, false, weather(attempt), 0);
    if ok {
      AcceptedIsStored(store, docs, sizes, l, weather(attempt), 0);
      assert docs[0..] == docs;
    } else if attempt + 1 < Collector.ATTEMPTS {
      AttemptsStore(mid, docs, sizes, l, weather, attempt + 1);
    }
  }

  /** The collection as attempt `k` finds it, if none before it succeeds. */
  function Before(store: seq<Doc>, docs: seq<Doc>, sizes: seq<nat>, l: Limits, ordered: bool,
                  weather: nat -> nat -> Weather, k: nat): seq<Doc>
    requires |sizes| == |docs|
  {
    if k == 0 then store
    else InsertFrom(Before(store, docs, sizes, l, ordered, weather, k - 1), docs, sizes, l, ordered, weather(k - 1),
                    0).0
  }

  /** Attempt `k` succeeds. */
  predicate Succeeds(store: seq<Doc>, docs: seq<Doc>, sizes: seq<nat>, l: Limits, ordered: bool,
                     weather: nat -> nat -> Weather, k: nat)
    requires |sizes| == |docs|
  {
    InsertFrom(Before(store, docs, sizes, l, ordered, weather, k), docs, sizes, l, ordered, weather(k), 0).1
  }

  /** A task ends well if and only if one of its four attempts succeeds. */
  lemma {:induction false} AttemptsExact(store: seq<Doc>, docs: seq<Doc>, sizes: seq<nat>, l: Limits, ordered: bool,
                                         weather: nat -> nat -> Weather, attempt: nat)
    requires |sizes| == |docs| && attempt < 4
    ensures Attempts(Before(store, docs, sizes, l, ordered, weather, attempt), docs, sizes, l, ordered, weather,
                     attempt).1
            <==> exists k :: attempt <= k < 4 && Succeeds(store, docs, sizes, l, ordered, weather, k)
    decreases 4 - attempt
  {
    hide InsertFrom;
    var found := Before(store, docs, sizes, l, ordered, weather, attempt);
    var (after, ok) := InsertFrom(found, docs, sizes, l, ordered, weather(attempt), 0);
    assert ok == Succeeds(store, docs, sizes, l, ordered, weather, attempt);
    if !ok && attempt + 1 < 4 {
      assert after == Before(store, docs, sizes, l, ordered, weather, attempt + 1);
      AttemptsExact(store, docs, sizes, l, ordered, weather, attempt + 1);
    }
  }

  /** For unordered inserts, from the weather alone: a task ends well if and only if in one of its four attempts each
    * chunk passes. */
  lemma TaskExact(store: seq<Doc>, docs: seq<Doc>, sizes: seq<nat>, l: Limits, weather: nat -> nat -> Weather)
    requires |sizes| == |docs|
    ensures Attempts(store, docs, sizes, l, false, weather, 0).1
            <==> exists k :: 0 <= k < 4
                   && AllPass(Before(store, docs, sizes, l, false, weather, k), docs, sizes, l, weather(k), 0)
  {
    hide InsertFrom, AllPass, Before, Attempts;
    AttemptsExact(store, docs, sizes, l, false, weather, 0);
    NotYet(store, docs, sizes, l, false, weather);
    forall k: nat | k < 4
      ensures Succeeds(store, docs, sizes, l, false, weather, k)
              <==> AllPass(Before(store, docs, sizes, l, false, weather, k), docs, sizes, l, weather(k), 0)
    {
      AcceptedAtOnce(Before(store, docs, sizes, l, false, weather, k), docs, sizes, l, weather(k));
    }
    assert Attempts(store, docs, sizes, l, false, weather, 0).1
      <==> exists k :: 0 <= k < 4 && Succeeds(store, docs, sizes, l, false, weather, k);
  }

  lemma NotYet(store: seq<Doc>, docs: seq<Doc>, sizes: seq<nat>, l: Limits, ordered: bool,
               weather: nat -> nat -> Weather)
    requires |sizes| == |docs|
    ensures Before(store, docs, sizes, l, ordered, weather, 0) == store
  {
  }

  /** The attempt loop of `worker_loop`, then the completion callback. */
  method InsertTask(sink: Sink, metrics: LossMetrics, requestIp: string, events: seq<bytes>,
                    weather: nat -> nat -> Weather) returns (ok: bool)
    requires forall i :: 0 <= i < |events| ==> HasHeader(events[i])
    modifies sink.collection, metrics
    ensures events != [] && sink.started ==>
              (sink.collection.docs, ok)
                == Attempts(old(sink.collection.docs), DocsOf(events, requestIp), SizesOf(events), sink.limits,
                            sink.ordered, weather, 0)
    ensures events != [] && sink.started ==>
              (ok <==> exists k ::
                         0 <= k < 4 && Succeeds(old(sink.collection.docs), DocsOf(events, requestIp), SizesOf(events),
                                                          sink.limits, sink.ordered, weather, k))
    ensures events != [] && !sink.started ==> !ok && sink.collection.docs == old(sink.collection.docs)
    ensures events == [] ==> ok && sink.collection.docs == old(sink.collection.docs)
    ensures metrics.persisted + metrics.dbRetryExhausted == old(metrics.persisted + metrics.dbRetryExhausted) + |events|
    ensures if ok then metrics.dbRetryExhausted == old(metrics.dbRetryExhausted)
            else metrics.persisted == old(metrics.persisted)
  {
    hide InsertFrom, DocsOf, SizesOf, Succeeds;
    ok := false;
    var attempt := 0;
    while attempt < Collector.ATTEMPTS && !ok
      invariant attempt <= Collector.ATTEMPTS && (ok || attempt < Collector.ATTEMPTS || !ok)
      invariant metrics.persisted == old(metrics.persisted) && metrics.dbRetryExhausted == old(metrics.dbRetryExhausted)
      invariant events != [] && sink.started ==>
                  (if ok || attempt == Collector.ATTEMPTS then (sink.collection.docs, ok)
                   else Attempts(sink.collection.docs, DocsOf(events, requestIp), SizesOf(events), sink.limits,
                                 sink.ordered, weather, attempt))
                  == Attempts(old(sink.collection.docs), DocsOf(events, requestIp), SizesOf(events), sink.limits,
                              sink.ordered, weather, 0)
      invariant events != [] && !sink.started ==> !ok
      invariant events == [] || !sink.started ==> sink.collection.docs == old(sink.collection.docs)
      invariant events == [] && attempt > 0 ==> ok
      decreases Collector.ATTEMPTS - attempt
    {
      var accepted;
      ok, accepted := sink.InsertEvents(requestIp, events, weather(attempt));
      attempt := attempt + 1;
    }
    metrics.CountDone(|events|, ok);
    AttemptsExact(old(sink.collection.docs), DocsOf(events, requestIp), SizesOf(events), sink.limits, sink.ordered,
                  weather, 0);
  }
}
