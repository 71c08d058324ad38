/** Bulk inserts into a collection with a unique key, and what an accepted insert means. */
module MongoSink {
  import opened AuditRecord
  import opened Bytes
  import opened Decimals
  import opened Wrappers
  import opened Chunking

  /** The unique index: tenant, server address, event sequence number. */
  datatype Key = Key(tenantId: nat, serverIp: string, eventSeq: nat)

  datatype Doc = Doc(key: Key, record: bytes)

  const OB_TENANT_ID: nat := 176

  /** Dotted text of an IPv4 address, first byte first. */
  function Quad(ip: nat): string
  {
    Decimal(ip / 0x100_0000 % 256) + "." + Decimal(ip / 0x1_0000 % 256) + "." + Decimal(ip / 0x100 % 256) + "."
      + Decimal(ip % 256)
  }

  /** The address to index by: the record's own, or the request's if the record carries no IPv4 address. */
  function AddressText(field: bytes, requestIp: string): string
    requires |field| == MAX_IP_LEN
  {
    var version, ip := FromLE(field[..4]), FromLE(field[4..8]);
    if version != 4 || ip == 0 then requestIp else Quad(ip)
  }

  /** The document of a decoded record. */
  function DocOf(record: bytes, requestIp: string): Doc
    requires HasHeader(record)
  {
    Doc(Key(Field(record, OB_RAW + OB_TENANT_ID, 8),
            AddressText(record[SERVER_IP..SERVER_IP + MAX_IP_LEN], requestIp),
            Field(record, EVENT_SEQ, 8)), record)
  }

  function DocsOf(records: seq<bytes>, requestIp: string): (docs: seq<Doc>)
    requires forall i :: 0 <= i < |records| ==> HasHeader(records[i])
    ensures |docs| == |records| && forall i :: 0 <= i < |docs| ==> docs[i] == DocOf(records[i], requestIp)
  {
    seq(|records|, i requires 0 <= i < |records| => DocOf(records[i], requestIp))
  }

  function SizesOf(records: seq<bytes>): (sizes: seq<nat>)
    ensures |sizes| == |records| && forall i :: 0 <= i < |sizes| ==> sizes[i] == |records[i]|
  {
    seq(|records|, i requires 0 <= i < |records| => |records[i]|)
  }

  // The server.

  datatype WriteError = WriteError(index: nat, duplicate: bool)

  /** `writeErrors` is missing when no reply came. */
  datatype Reply = Reply(ok: bool, writeErrors: Option<seq<WriteError>>)

  /** What befalls one bulk insert: documents the server refuses for a reason of its own, a write concern
    * that is not met, or a connection that breaks after some documents. Replies without errors may or may
    * not carry an empty list of them. */
  datatype Weather =
    | Answered(faulty: set<nat>, concernMet: bool, listsNone: bool)
    | Broken(faulty: set<nat>, reached: nat)

  predicate Has(store: seq<Doc>, key: Key)
  {
    exists i :: 0 <= i < |store| && store[i].key == key
  }

  /** The server takes the documents one by one; a taken key is an error. It goes on after an error
    * unless the insert is ordered. */
  function Serve(store: seq<Doc>, docs: seq<Doc>, ordered: bool, faulty: set<nat>,
                 at: nat): (r: (seq<Doc>, seq<WriteError>))
    requires at <= |docs|
    decreases |docs| - at
  {
    if at == |docs| then (store, [])
    else if at in faulty || Has(store, docs[at].key) then
      var error := WriteError(at, at !in faulty);
      if ordered then (store, [error]) else
        var (after, errors) := Serve(store, docs, ordered, faulty, at + 1);
        (after, [error] + errors)
    else Serve(store + [docs[at]], docs, ordered, faulty, at + 1)
  }

  /** The reply that comes back when the server has taken all documents. */
  function ReplyOf(errors: seq<WriteError>, concernMet: bool, listsNone: bool): Reply
  {
    Reply(errors == [] && concernMet, if errors == [] && !listsNone then None else Some(errors))
  }

  function InsertMany(store: seq<Doc>, docs: seq<Doc>, ordered: bool, w: Weather): (seq<Doc>, Reply)
  {
    match w
    case Answered(faulty, concernMet, listsNone) =>
      var (after, errors) := Serve(store, docs, ordered, faulty, 0);
      (after, ReplyOf(errors, concernMet, listsNone))
    case Broken(faulty, reached) =>
      (Serve(store, docs[..if reached < |docs| then reached else |docs|], ordered, faulty, 0).0, Reply(false, None))
  }

  /** `duplicate_only`: the reply has a list of write errors, all of them duplicate keys. */
  predicate DuplicateOnly(reply: Reply)
  {
    reply.writeErrors.Some? && AllDuplicate(reply.writeErrors.value)
  }

  predicate ChunkAccepted(reply: Reply)
  {
    reply.ok || DuplicateOnly(reply)
  }

  // What the store keeps.

  predicate UniqueKeys(store: seq<Doc>)
  {
    forall i, j :: 0 <= i < j < |store| ==> store[i].key != store[j].key
  }

  predicate Stored(store: seq<Doc>, docs: seq<Doc>)
  {
    forall i :: 0 <= i < |docs| ==> Has(store, docs[i].key)
  }

  /** `after` is `store` with some of `docs` added at the end. */
  predicate Grew(store: seq<Doc>, after: seq<Doc>, docs: seq<Doc>)
  {
    store <= after && forall i :: |store| <= i < |after| ==> after[i] in docs
  }

  lemma HasGrows(store: seq<Doc>, after: seq<Doc>, key: Key)
    requires store <= after && Has(store, key)
    ensures Has(after, key)
  {
    var i :| 0 <= i < |store| && store[i].key == key;
    assert after[i].key == key;
  }

  lemma StoredGrows(store: seq<Doc>, after: seq<Doc>, docs: seq<Doc>)
    requires store <= after && Stored(store, docs)
    ensures Stored(after, docs)
  {
    forall i | 0 <= i < |docs|
      ensures Has(after, docs[i].key)
    {
      HasGrows(store, after, docs[i].key);
    }
  }

  /** The server never loses or changes a document, adds only what was sent, and keeps keys unique. */
  lemma {:induction false} ServeKeeps(store: seq<Doc>, docs: seq<Doc>, ordered: bool, faulty: set<nat>, at: nat)
    requires at <= |docs|
    ensures Grew(store, Serve(store, docs, ordered, faulty, at).0, docs)
    ensures UniqueKeys(store) ==> UniqueKeys(Serve(store, docs, ordered, faulty, at).0)
    decreases |docs| - at
  {
    if at < |docs| {
      if at in faulty || Has(store, docs[at].key) {
        if !ordered {
          ServeKeeps(store, docs, ordered, faulty, at + 1);
        }
      } else {
        ServeKeeps(store + [docs[at]], docs, ordered, faulty, at + 1);
      }
    }
  }

  lemma InsertManyKeeps(store: seq<Doc>, docs: seq<Doc>, ordered: bool, w: Weather)
    ensures Grew(store, InsertMany(store, docs, ordered, w).0, docs)
    ensures UniqueKeys(store) ==> UniqueKeys(InsertMany(store, docs, ordered, w).0)
  {
    match w {
      case Answered(faulty, _, _) => ServeKeeps(store, docs, ordered, faulty, 0);
      case Broken(faulty, reached) =>
        var part := docs[..if reached < |docs| then reached else |docs|];
        ServeKeeps(store, part, ordered, faulty, 0);
    }
  }

  predicate AllDuplicate(errors: seq<WriteError>)
  {
    forall i :: 0 <= i < |errors| ==> errors[i].duplicate
  }

  /** Unordered: the errors tell whether the server refused any document for a reason of its own. */
  lemma {:induction false} ErrorsTell(store: seq<Doc>, docs: seq<Doc>, faulty: set<nat>, at: nat)
    requires at <= |docs|
    ensures AllDuplicate(Serve(store, docs, false, faulty, at).1) <==> forall i :: at <= i < |docs| ==> i !in faulty
    decreases |docs| - at
  {
    hide Has;
    if at < |docs| {
      if at in faulty || Has(store, docs[at].key) {
        ErrorsTell(store, docs, faulty, at + 1);
        var errors := Serve(store, docs, false, faulty, at + 1).1;
        var all := [WriteError(at, at !in faulty)] + errors;
        assert all[0] == WriteError(at, at !in faulty) && forall i :: 0 <= i < |errors| ==> all[i + 1] == errors[i];
      } else {
        ErrorsTell(store + [docs[at]], docs, faulty, at + 1);
      }
    }
  }

  /** Unordered: every other document ends up with its key stored. */
  lemma {:induction false} ServeUnordered(store: seq<Doc>, docs: seq<Doc>, faulty: set<nat>, at: nat, i: nat)
    requires at <= i < |docs| && i !in faulty
    ensures Has(Serve(store, docs, false, faulty, at).0, docs[i].key)
    decreases |docs| - at
  {
    hide Has;
    var next := if at in faulty || Has(store, docs[at].key) then store else store + [docs[at]];
    if at == i {
      HasLast(store, docs[at]);
      ServeKeeps(next, docs, false, faulty, at + 1);
      HasGrows(next, Serve(next, docs, false, faulty, at + 1).0, docs[at].key);
    } else {
      ServeUnordered(next, docs, faulty, at + 1, i);
    }
  }

  lemma HasLast(store: seq<Doc>, d: Doc)
    ensures Has(store + [d], d.key)
  {
    assert (store + [d])[|store|] == d;
  }

  /** A reply is only accepted if every error in it is a duplicate key. */
  lemma AcceptedReply(errors: seq<WriteError>, concernMet: bool, listsNone: bool)
    ensures ChunkAccepted(ReplyOf(errors, concernMet, listsNone))
            <==> AllDuplicate(errors) && (concernMet || listsNone || errors != [])
  {
  }

  /** When an unordered chunk is accepted: the server answered, refused no document on its own, and either met
    * the write concern or sent a list of write errors, be it empty. */
  lemma UnorderedAccepted(store: seq<Doc>, docs: seq<Doc>, w: Weather)
    ensures ChunkAccepted(InsertMany(store, docs, false, w).1)
            <==> w.Answered? && (forall i :: 0 <= i < |docs| ==> i !in w.faulty)
                 && (w.concernMet || w.listsNone || Serve(store, docs, false, w.faulty, 0).1 != [])
  {
    hide Serve;
    ErrorsTell(store, docs, w.faulty, 0);
  }

  /** An accepted unordered chunk leaves none of its documents out. */
  lemma UnorderedChunkStored(store: seq<Doc>, docs: seq<Doc>, w: Weather)
    requires ChunkAccepted(InsertMany(store, docs, false, w).1)
    ensures Stored(InsertMany(store, docs, false, w).0, docs)
  {
    hide Serve, Has;
    ErrorsTell(store, docs, w.faulty, 0);
    forall i | 0 <= i < |docs|
      ensures Has(InsertMany(store, docs, false, w).0, docs[i].key)
    {
      ServeUnordered(store, docs, w.faulty, 0, i);
    }
  }

  /** Sending again what is stored already changes nothing and is accepted. */
  lemma {:induction false} Resent(store: seq<Doc>, docs: seq<Doc>, at: nat)
    requires at <= |docs| && Stored(store, docs)
    ensures var (after, errors) := Serve(store, docs, false, {}, at);
            after == store && AllDuplicate(errors)
    decreases |docs| - at
  {
    if at < |docs| {
      Resent(store, docs, at + 1);
    }
  }

  // Ordered inserts.

  /** Up to the first document that meets an error when its turn comes. */
  function FirstError(store: seq<Doc>, docs: seq<Doc>, faulty: set<nat>, at: nat): (r: nat)
    requires at <= |docs|
    ensures at <= r <= |docs|
    decreases |docs| - at
  {
    if at == |docs| || at in faulty || Has(store, docs[at].key) then at
    else FirstError(store + [docs[at]], docs, faulty, at + 1)
  }

  /** Ordered: the server stops at the first error, yet a lone duplicate makes the chunk count as accepted. */
  lemma {:induction false} ServeOrdered(store: seq<Doc>, docs: seq<Doc>, faulty: set<nat>, at: nat)
    requires at <= |docs|
    ensures var (after, errors) := Serve(store, docs, true, faulty, at);
            var stop := FirstError(store, docs, faulty, at);
            after == store + docs[at..stop]
            && errors == (if stop == |docs| then [] else [WriteError(stop, stop !in faulty)])
    decreases |docs| - at
  {
    if at < |docs| && at !in faulty && !Has(store, docs[at].key) {
      var stop := FirstError(store, docs, faulty, at);
      ServeOrdered(store + [docs[at]], docs, faulty, at + 1);
      assert store + [docs[at]] + docs[at + 1..stop] == store + docs[at..stop];
    } else {
      assert store + docs[at..at] == store;
    }
  }

  lemma OneError(e: WriteError)
    ensures AllDuplicate([e]) <==> e.duplicate
  {
    assert [e][0] == e;
  }

  /** An ordered chunk, whatever befalls it: it is accepted exactly when the server answered and the first error,
    * if any, is a taken key (with none, when the write concern was met or an empty list came). And after any
    * answer it has all its documents stored if and only if everything from the first error on is there
    * already, which acceptance does not say. */
  lemma OrderedChunkStored(store: seq<Doc>, docs: seq<Doc>, w: Weather)
    ensures var (after, reply) := InsertMany(store, docs, true, w);
            var stop := FirstError(store, docs, w.faulty, 0);
            && (ChunkAccepted(reply) <==>
                 w.Answered? && (if stop == |docs| then w.concernMet || w.listsNone else stop !in w.faulty))
            && (w.Answered? ==> after == store + docs[..stop])
            && (w.Answered? ==>
                 (Stored(after, docs) <==> forall i :: stop <= i < |docs| ==> Has(store + docs[..stop], docs[i].key)))
  {
    hide Serve, FirstError;
    ServeOrdered(store, docs, w.faulty, 0);
    if w.Answered? {
      AcceptedReply(Serve(store, docs, true, w.faulty, 0).1, w.concernMet, w.listsNone);
      OneError(WriteError(FirstError(store, docs, w.faulty, 0), FirstError(store, docs, w.faulty, 0) !in w.faulty));
    }
    var stop := FirstError(store, docs, w.faulty, 0);
    var after := store + docs[..stop];
    assert docs[0..stop] == docs[..stop];
    forall i | 0 <= i < stop
      ensures Has(after, docs[i].key)
    {
      assert after[|store| + i] == docs[i];
    }
  }

  /** Documents that are not stored yet, with keys all different. */
  predicate Fresh(store: seq<Doc>, docs: seq<Doc>)
  {
    UniqueKeys(docs) && forall i :: 0 <= i < |docs| ==> !Has(store, docs[i].key)
  }

  /** New documents that meet no error are all taken, up to where the connection breaks. */
  lemma {:induction false} FreshServed(store: seq<Doc>, docs: seq<Doc>, at: nat)
    requires at <= |docs| && Fresh(store, docs)
    ensures FirstError(store + docs[..at], docs, {}, at) == |docs|
    decreases |docs| - at
  {
    if at < |docs| {
      FreshBehind(store, docs, at, at);
      assert store + docs[..at + 1] == store + docs[..at] + [docs[at]];
      FreshServed(store, docs, at + 1);
    }
  }

  lemma HasJoin(store: seq<Doc>, more: seq<Doc>, key: Key)
    ensures Has(store + more, key) <==> Has(store, key) || Has(more, key)
  {
    forall i | 0 <= i < |store + more|
      ensures (store + more)[i] == if i < |store| then store[i] else more[i - |store|]
    {
    }
    if Has(more, key) {
      var i :| 0 <= i < |more| && more[i].key == key;
      assert (store + more)[|store| + i].key == key;
    }
    if Has(store, key) {
      var i :| 0 <= i < |store| && store[i].key == key;
      assert (store + more)[i].key == key;
    }
  }

  lemma FreshBehind(store: seq<Doc>, docs: seq<Doc>, k: nat, i: nat)
    requires k <= i < |docs| && Fresh(store, docs)
    ensures !Has(store + docs[..k], docs[i].key)
  {
    HasJoin(store, docs[..k], docs[i].key);
    assert forall j :: 0 <= j < k ==> docs[..k][j] == docs[j];
  }

  lemma FreshPart(store: seq<Doc>, docs: seq<Doc>, k: nat)
    requires k <= |docs| && Fresh(store, docs)
    ensures Fresh(store, docs[..k])
  {
  }

  /** What becomes of an ordered chunk of new documents whose insert breaks off behind `k` of them and is tried
    * again: the second attempt stops at the first document, which is there already, and counts as success. So all
    * documents are stored if and only if none of them had been, or all; otherwise those from `k` on are lost, and
    * the caller is told that everything is stored. */
  lemma OrderedRetry(store: seq<Doc>, docs: seq<Doc>, k: nat, concernMet: bool, listsNone: bool)
    requires Fresh(store, docs) && k <= |docs| && docs != []
    ensures var (mid, first) := InsertMany(store, docs, true, Broken({}, k));
            var (after, second) := InsertMany(mid, docs, true, Answered({}, concernMet, listsNone));
            && !ChunkAccepted(first) && mid == store + docs[..k]
            && (k > 0 ==> ChunkAccepted(second) && after == mid
                          && forall i :: k <= i < |docs| ==> !Has(after, docs[i].key))
            && (k == 0 ==> after == store + docs)
            && (Stored(after, docs) <==> k == 0 || k == |docs|)
  {
    hide Serve, FirstError, Has, Fresh;
    var part := docs[..k];
    FreshPart(store, docs, k);
    FreshServed(store, part, 0);
    ServeOrdered(store, part, {}, 0);
    assert part[..0] == [] && store + [] == store && part[0..k] == part;
    var mid := store + part;
    assert docs[..if k < |docs| then k else |docs|] == part;
    assert InsertMany(store, docs, true, Broken({}, k)).0 == mid;
    if k == 0 {
      FreshServed(store, docs, 0);
      ServeOrdered(store, docs, {}, 0);
      assert docs[..0] == [] && docs[0..|docs|] == docs && mid == store;
      StoredAll(store, docs);
    } else {
      var after := InsertMany(mid, docs, true, Answered({}, concernMet, listsNone)).0;
      AlreadyThere(store, docs, k);
      ServeOrdered(mid, docs, {}, 0);
      assert docs[0..0] == [] && mid + [] == mid;
      AcceptedReply([WriteError(0, true)], concernMet, listsNone);
      OneError(WriteError(0, true));
      forall i | k <= i < |docs|
        ensures !Has(mid, docs[i].key)
      {
        FreshBehind(store, docs, k, i);
      }
      StoredPart(store, docs, k);
      assert after == mid && (k < |docs| ==> !Has(after, docs[k].key));
    }
  }

  lemma StoredAll(store: seq<Doc>, docs: seq<Doc>)
    ensures Stored(store + docs, docs)
  {
    forall i | 0 <= i < |docs|
      ensures Has(store + docs, docs[i].key)
    {
      assert (store + docs)[|store| + i] == docs[i];
    }
  }

  lemma StoredPart(store: seq<Doc>, docs: seq<Doc>, k: nat)
    requires k <= |docs|
    ensures k == |docs| ==> Stored(store + docs[..k], docs)
  {
    if k == |docs| {
      assert docs[..k] == docs;
      StoredAll(store, docs);
    }
  }

  lemma AlreadyThere(store: seq<Doc>, docs: seq<Doc>, k: nat)
    requires 0 < k <= |docs|
    ensures FirstError(store + docs[..k], docs, {}, 0) == 0
  {
    assert (store + docs[..k])[|store|] == docs[0];
  }

  /** So with ordered inserts a chunk can be accepted although a document of it is nowhere in the store. */
  lemma OrderedLosesDocuments()
    ensures var stored, wanted := Doc(Key(1, "10.0.0.1", 7), []), Doc(Key(1, "10.0.0.1", 8), []);
            var (after, reply) := InsertMany([stored], [stored, wanted], true, Answered({}, true, true));
            ChunkAccepted(reply) && !Has(after, wanted.key)
  {
    var stored, wanted := Doc(Key(1, "10.0.0.1", 7), []), Doc(Key(1, "10.0.0.1", 8), []);
    assert [stored][0].key == stored.key;
    assert Serve([stored], [stored, wanted], true, {}, 0) == ([stored], [WriteError(0, true)]);
  }

  // A whole task.

  /** The chunk loop, from document `start` on: each chunk meets its own weather. */
  function InsertFrom(store: seq<Doc>, docs: seq<Doc>, sizes: seq<nat>, l: Limits, ordered: bool,
                      weather: nat -> Weather, start: nat)
    : (seq<Doc>, bool)
    requires |sizes| == |docs| && start <= |docs|
    decreases |docs| - start
  {
    if start == |docs| then (store, true) else
      var end := ChunkEnd(sizes, l, start);
      var (after, reply) := InsertMany(store, docs[start..end], ordered, weather(start));
      if ChunkAccepted(reply) then InsertFrom(after, docs, sizes, l, ordered, weather, end) else (after, false)
  }

  lemma {:induction false} InsertFromKeeps(store: seq<Doc>, docs: seq<Doc>, sizes: seq<nat>, l: Limits, ordered: bool,
                                           weather: nat -> Weather, start: nat)
    requires |sizes| == |docs| && start <= |docs|
    ensures var after := InsertFrom(store, docs, sizes, l, ordered, weather, start).0;
            Grew(store, after, docs) && (UniqueKeys(store) ==> UniqueKeys(after))
    decreases |docs| - start
  {
    hide InsertMany, UniqueKeys, ChunkEnd;
    if start < |docs| {
      var end := ChunkEnd(sizes, l, start);
      var chunk := docs[start..end];
      InsertManyKeeps(store, chunk, ordered, weather(start));
      var (mid, reply) := InsertMany(store, chunk, ordered, weather(start));
      if ChunkAccepted(reply) {
        InsertFromKeeps(mid, docs, sizes, l, ordered, weather, end);
      }
    }
  }

  /** A task that insert_events accepts has every one of its documents' keys in the store, when inserts are
    * unordered, whatever happened to earlier attempts. */
  lemma {:induction false} AcceptedIsStored(store: seq<Doc>, docs: seq<Doc>, sizes: seq<nat>, l: Limits,
                                            weather: nat -> Weather, start: nat)
    requires |sizes| == |docs| && start <= |docs|
    requires InsertFrom(store, docs, sizes, l, false, weather, start).1
    ensures Stored(InsertFrom(store, docs, sizes, l, false, weather, start).0, docs[start..])
    decreases |docs| - start
  {
    hide InsertMany, ChunkEnd, Has;
    if start < |docs| {
      var end := ChunkEnd(sizes, l, start);
      var chunk := docs[start..end];
      UnorderedChunkStored(store, chunk, weather(start));
      var mid := InsertMany(store, chunk, false, weather(start)).0;
      AcceptedIsStored(mid, docs, sizes, l, weather, end);
      InsertFromKeeps(mid, docs, sizes, l, false, weather, end);
      var after := InsertFrom(mid, docs, sizes, l, false, weather, end).0;
      StoredGrows(mid, after, chunk);
      forall i | 0 <= i < |docs[start..]|
        ensures Has(after, docs[start..][i].key)
      {
        if i < end - start {
          assert docs[start..][i] == chunk[i];
        } else {
          assert docs[start..][i] == docs[end..][i - (end - start)];
        }
      }
    }
  }

  // When a task is accepted.

  /** The key of document `i` is taken when its turn comes, unless an error of its own kept an earlier one out. */
  predicate KeyTaken(store: seq<Doc>, docs: seq<Doc>, i: nat)
    requires i < |docs|
  {
    Has(store, docs[i].key) || exists j :: 0 <= j < i && docs[j].key == docs[i].key
  }

  /** The weather lets an unordered chunk pass: the server answers, refuses none of its documents on its own, and meets
    * the write concern or lists errors, be it none; taken keys are errors that it lists. */
  predicate Passes(store: seq<Doc>, docs: seq<Doc>, from: nat, end: nat, w: Weather)
    requires from <= end <= |docs|
  {
    && w.Answered? && (forall i :: 0 <= i < end - from ==> i !in w.faulty)
    && (w.concernMet || w.listsNone || exists i :: from <= i < end && KeyTaken(store, docs, i))
  }

  /** So it is at every chunk of the greedy cutting. */
  predicate AllPass(store: seq<Doc>, docs: seq<Doc>, sizes: seq<nat>, l: Limits, weather: nat -> Weather, start: nat)
    requires |sizes| == |docs| && start <= |docs|
  {
    forall cut :: cut in Greedy(sizes, l, start) && cut < |docs| ==>
      Passes(store, docs, cut, ChunkEnd(sizes, l, cut), weather(cut))
  }

  /** Among documents that the server does not refuse on its own, errors are taken keys. */
  lemma {:induction false} ErrorsAreTaken(store: seq<Doc>, docs: seq<Doc>, at: nat)
    requires at <= |docs|
    ensures Serve(store, docs, false, {}, at).1 != []
            <==> exists i :: at <= i < |docs|
                             && (Has(store, docs[i].key) || exists j :: at <= j < i && docs[j].key == docs[i].key)
    decreases |docs| - at
  {
    hide Has;
    if at < |docs| {
      if Has(store, docs[at].key) {
        assert Serve(store, docs, false, {}, at).1 != [];
      } else {
        var more := store + [docs[at]];
        ErrorsAreTaken(more, docs, at + 1);
        forall i | at < i < |docs|
          ensures Has(more, docs[i].key) <==> Has(store, docs[i].key) || docs[at].key == docs[i].key
        {
          HasJoin(store, [docs[at]], docs[i].key);
          HasOne(docs[at], docs[i].key);
        }
      }
    }
  }

  lemma HasOne(d: Doc, key: Key)
    ensures Has([d], key) <==> d.key == key
  {
    assert [d][0] == d;
  }

  /** Which documents the server refuses on its own only matters if one of them is in the chunk. */
  lemma {:induction false} NoneFaulty(store: seq<Doc>, docs: seq<Doc>, faulty: set<nat>, at: nat)
    requires at <= |docs| && forall i :: at <= i < |docs| ==> i !in faulty
    ensures Serve(store, docs, false, faulty, at) == Serve(store, docs, false, {}, at)
    decreases |docs| - at
  {
    hide Has;
    if at < |docs| {
      NoneFaulty(store, docs, faulty, at + 1);
      NoneFaulty(store + [docs[at]], docs, faulty, at + 1);
    }
  }

  /** One chunk is accepted exactly when the weather lets it pass. */
  lemma ChunkPasses(store: seq<Doc>, first: seq<Doc>, docs: seq<Doc>, from: nat, end: nat, w: Weather)
    requires from <= end <= |docs|
    requires forall key :: Has(store, key) <==> Has(first, key) || Has(docs[..from], key)
    ensures ChunkAccepted(InsertMany(store, docs[from..end], false, w).1) <==> Passes(first, docs, from, end, w)
  {
    hide Has, Serve;
    var chunk := docs[from..end];
    UnorderedAccepted(store, chunk, w);
    if w.Answered? && forall i :: 0 <= i < |chunk| ==> i !in w.faulty {
      NoneFaulty(store, chunk, w.faulty, 0);
      ErrorsAreTaken(store, chunk, 0);
      forall i | from <= i < end
        ensures KeyTaken(first, docs, i)
                <==> (|| Has(store, chunk[i - from].key)
                      || exists j :: 0 <= j < i - from && chunk[j].key == chunk[i - from].key)
      {
        TakenBefore(first, docs, from, end, i);
      }
      assert (exists i :: from <= i < end && KeyTaken(first, docs, i))
        <==> exists i :: 0 <= i < |chunk|
                         && (Has(store, chunk[i].key) || exists j :: 0 <= j < i && chunk[j].key == chunk[i].key) by {
        Shifted(store, first, docs, from, end);
      }
    }
  }

  lemma Shifted(store: seq<Doc>, first: seq<Doc>, docs: seq<Doc>, from: nat, end: nat)
    requires from <= end <= |docs|
    requires forall i :: from <= i < end ==>
               (KeyTaken(first, docs, i)
                <==> (|| Has(store, docs[from..end][i - from].key)
                      || exists j :: 0 <= j < i - from && docs[from..end][j].key == docs[from..end][i - from].key))
    ensures (exists i :: from <= i < end && KeyTaken(first, docs, i))
            <==> exists i :: 0 <= i < |docs[from..end]|
                             && (|| Has(store, docs[from..end][i].key)
                                 || exists j :: 0 <= j < i && docs[from..end][j].key == docs[from..end][i].key)
  {
    hide Has, KeyTaken;
    var chunk := docs[from..end];
    if i :| from <= i < end && KeyTaken(first, docs, i) {
      var k := i - from;
      assert Has(store, chunk[k].key) || exists j :: 0 <= j < k && chunk[j].key == chunk[k].key;
    }
    if k :| 0 <= k < |chunk| && (Has(store, chunk[k].key) || exists j :: 0 <= j < k && chunk[j].key == chunk[k].key) {
      assert KeyTaken(first, docs, from + k);
    }
  }

  lemma TakenBefore(first: seq<Doc>, docs: seq<Doc>, from: nat, end: nat, i: nat)
    requires from <= i < end <= |docs|
    ensures KeyTaken(first, docs, i)
            <==> (|| Has(first, docs[i].key) || Has(docs[..from], docs[i].key)
                  || exists j :: 0 <= j < i - from && docs[from..end][j].key == docs[i].key)
  {
    var key := docs[i].key;
    if j :| 0 <= j < i && docs[j].key == key {
      if j < from {
        assert docs[..from][j].key == key;
      } else {
        assert docs[from..end][j - from].key == key;
      }
    }
    if j :| 0 <= j < i - from && docs[from..end][j].key == key {
      assert docs[from + j].key == key;
    }
    if Has(docs[..from], key) {
      var j :| 0 <= j < from && docs[..from][j].key == key;
      assert docs[j].key == key;
    }
  }

  /** After an accepted unordered chunk the keys of the collection are those before and the chunk's. */
  lemma KeysAfter(store: seq<Doc>, docs: seq<Doc>, w: Weather, key: Key)
    requires ChunkAccepted(InsertMany(store, docs, false, w).1)
    ensures Has(InsertMany(store, docs, false, w).0, key) <==> Has(store, key) || Has(docs, key)
  {
    hide InsertMany, Has, UniqueKeys, ChunkAccepted, Stored;
    var after := InsertMany(store, docs, false, w).0;
    UnorderedChunkStored(store, docs, w);
    InsertManyKeeps(store, docs, false, w);
    var tail := after[|store|..];
    assert after == store + tail;
    HasJoin(store, tail, key);
    if Has(docs, key) {
      StoredHas(after, docs, key);
    }
    if Has(tail, key) {
      AmongHas(tail, docs, key);
    }
  }

  lemma StoredHas(store: seq<Doc>, docs: seq<Doc>, key: Key)
    requires Stored(store, docs) && Has(docs, key)
    ensures Has(store, key)
  {
    hide Has;
    var i := WhereHas(docs, key);
    assert Has(store, docs[i].key);
  }

  lemma WhereHas(docs: seq<Doc>, key: Key) returns (i: nat)
    requires Has(docs, key)
    ensures i < |docs| && docs[i].key == key
  {
    i :| i < |docs| && docs[i].key == key;
  }

  lemma AmongHas(some: seq<Doc>, docs: seq<Doc>, key: Key)
    requires Has(some, key) && forall i :: 0 <= i < |some| ==> some[i] in docs
    ensures Has(docs, key)
  {
    var i := WhereHas(some, key);
    var j :| 0 <= j < |docs| && docs[j] == some[i];
  }

  /** A task is accepted if and only if the weather lets each of its chunks pass; that depends on nothing but the
    * weather and which keys were taken at the beginning. */
  lemma {:induction false} AcceptedExact(store: seq<Doc>, first: seq<Doc>, docs: seq<Doc>, sizes: seq<nat>, l: Limits,
                                         weather: nat -> Weather, start: nat)
    requires |sizes| == |docs| && start <= |docs|
    requires forall key :: Has(store, key) <==> Has(first, key) || Has(docs[..start], key)
    ensures InsertFrom(store, docs, sizes, l, false, weather, start).1 <==>
              AllPass(first, docs, sizes, l, weather, start)
    decreases |docs| - start
  {
    hide InsertMany, ChunkEnd, Has, Passes, AllPass, ChunkAccepted;
    if start == |docs| {
      NonePasses(first, docs, sizes, l, weather);
    } else {
      var end := ChunkEnd(sizes, l, start);
      ChunkPasses(store, first, docs, start, end, weather(start));
      AllPassStep(first, docs, sizes, l, weather, start);
      var (mid, reply) := InsertMany(store, docs[start..end], false, weather(start));
      if ChunkAccepted(reply) {
        forall key
          ensures Has(mid, key) <==> Has(first, key) || Has(docs[..end], key)
        {
          KeysAfter(store, docs[start..end], weather(start), key);
          assert docs[..end] == docs[..start] + docs[start..end];
          HasJoin(docs[..start], docs[start..end], key);
        }
        AcceptedExact(mid, first, docs, sizes, l, weather, end);
      }
    }
  }

  lemma AcceptedAtOnce(store: seq<Doc>, docs: seq<Doc>, sizes: seq<nat>, l: Limits, weather: nat -> Weather)
    requires |sizes| == |docs|
    ensures InsertFrom(store, docs, sizes, l, false, weather, 0).1 <==> AllPass(store, docs, sizes, l, weather, 0)
  {
    hide InsertFrom, AllPass;
    assert docs[..0] == [];
    AcceptedExact(store, store, docs, sizes, l, weather, 0);
  }

  lemma NonePasses(first: seq<Doc>, docs: seq<Doc>, sizes: seq<nat>, l: Limits, weather: nat -> Weather)
    requires |sizes| == |docs|
    ensures AllPass(first, docs, sizes, l, weather, |docs|)
  {
  }

  lemma AllPassStep(first: seq<Doc>, docs: seq<Doc>, sizes: seq<nat>, l: Limits, weather: nat -> Weather, start: nat)
    requires |sizes| == |docs| && start < |docs|
    ensures var end := ChunkEnd(sizes, l, start);
            AllPass(first, docs, sizes, l, weather, start)
            <==> Passes(first, docs, start, end, weather(start)) && AllPass(first, docs, sizes, l, weather, end)
  {
    hide ChunkEnd, Passes;
    var end := ChunkEnd(sizes, l, start);
    var rest, cuts := Greedy(sizes, l, end), Greedy(sizes, l, start);
    assert cuts == [start] + rest;
    assert forall cut :: cut in cuts <==> cut == start || cut in rest;
  }

  /** Different documents never share a key: what the sequence numbers are for. */
  ghost predicate Distinguishes(all: iset<Doc>)
  {
    forall d, e :: d in all && e in all && d.key == e.key ==> d == e
  }

  /** Then a key in the store stands for the very document, so a duplicate-key error hides no other event. */
  lemma KeyMeansDocument(store: seq<Doc>, d: Doc, all: iset<Doc>)
    requires Distinguishes(all) && d in all && (forall e :: e in store ==> e in all) && Has(store, d.key)
    ensures d in store
  {
    var i :| 0 <= i < |store| && store[i].key == d.key;
    assert store[i] in store;
  }

  /** The database's collection behind the sink. */
  class Collection {
    var docs: seq<Doc>

    constructor ()
      ensures docs == []
    {
      docs := [];
    }

    method Insert(batch: seq<Doc>, ordered: bool, w: Weather) returns (reply: Reply)
      modifies this
      ensures (docs, reply) == InsertMany(old(docs), batch, ordered, w)
    {
      var (after, r) := InsertMany(docs, batch, ordered, w);
      docs := after;
      reply := r;
    }
  }

  class Sink {
    const collection: Collection
    const limits: Limits
    const ordered: bool
    var started: bool

    constructor (collection: Collection, limits: Limits, ordered: bool)
      ensures this.collection == collection && this.limits == limits && this.ordered == ordered && started
    {
      this.collection, this.limits, this.ordered, started := collection, limits, ordered, true;
    }

    /** Both loops of `insert_events`: the outer one over chunks, the inner one looking for a chunk's end. */
    method InsertEvents(requestIp: string, events: seq<bytes>, weather: nat -> Weather)
      returns (ok: bool, acceptedRecords: nat)
      requires forall i :: 0 <= i < |events| ==> HasHeader(events[i])
      modifies collection
      ensures acceptedRecords == if ok then |events| else 0
      ensures events == [] ==> ok && collection.docs == old(collection.docs)
      ensures events != [] && !started ==> !ok && collection.docs == old(collection.docs)
      ensures events != [] && started ==>
                (collection.docs, ok)
                  == InsertFrom(old(collection.docs), DocsOf(events, requestIp), SizesOf(events), limits, ordered,
                                weather, 0)
      ensures events != [] && started && !ordered ==>
                (ok <==> AllPass(old(collection.docs), DocsOf(events, requestIp), SizesOf(events), limits, weather, 0))
    {
      acceptedRecords := 0;
      if events == [] {
        return true, 0;
      }
      if !started {
        return false, 0;
      }
      hide InsertMany, DocsOf, SizesOf, AllPass;
      var docs, sizes := DocsOf(events, requestIp), SizesOf(events);
      AcceptedAtOnce(collection.docs, docs, sizes, limits, weather);
      var start := 0;
      ok := true;
      while start < |docs|
        invariant start <= |docs| && ok
        invariant InsertFrom(old(collection.docs), docs, sizes, limits, ordered, weather, 0)
               == InsertFrom(collection.docs, docs, sizes, limits, ordered, weather, start)
        decreases |docs| - start
      {
        var end := FindEnd(sizes, start);
        var reply := collection.Insert(docs[start..end], ordered, weather(start));
        if !reply.ok && !DuplicateOnly(reply) {
          return false, 0;
        }
        start := end;
      }
      acceptedRecords := |events|;
    }

    method FindEnd(sizes: seq<nat>, start: nat) returns (end: nat)
      requires start < |sizes|
      ensures end == ChunkEnd(sizes, limits, start)
    {
      end := start;
      var chunkBytes := 0;
      while end < |sizes|
        invariant start <= end <= |sizes| && chunkBytes == ChunkBytes(sizes, start, end)
        invariant end > start ==> Extend(sizes, limits, start, end) == ChunkEnd(sizes, limits, start)
      {
        if end > start {
          if limits.maxRecords > 0 && end - start >= limits.maxRecords {
            break;
          }
          if limits.maxBytes > 0 && chunkBytes + sizes[end] > limits.maxBytes {
            break;
          }
        }
        chunkBytes := chunkBytes + sizes[end];
        end := end + 1;
      }
    }
  }
}
