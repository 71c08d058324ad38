/** The parts put together: what the agents send is accepted for what it is, and is stored once. */
module EndToEnd {
  import opened Bytes
  import opened AuditRecord
  import opened RecordParser
  import opened MongoSink
  import AgentAccounting
  import AgentLife
  import AgentRecords
  import BatchPool
  import BatchSender
  import Cluster
  import Collector
  import CollectorService
  import SenderRuns

  /** An agent: its life, through any number of processes, and the address text it puts on its uploads. */
  datatype Agent = Agent(states: seq<AgentLife.Life>, steps: seq<AgentLife.Step>, address: string)

  ghost predicate Kept(a: Agent)
  {
    AgentLife.IsKeptRun(a.states, a.steps)
  }

  /** The address under which the collector indexes the agent's events. */
  function IndexedAs(a: Agent): string
    requires |a.states| > 0 && |a.states[0].sys.agent.serverIp| == MAX_IP_LEN
  {
    AddressText(a.states[0].sys.agent.serverIp, a.address)
  }

  /** In state `i` of its life the agent has an upload under way in worker `w`. */
  predicate Uploads(a: Agent, i: nat, w: nat)
  {
    && i < |a.states| && a.states[i].check.running
    && w < |a.states[i].sys.sender.workers| && a.states[i].sys.sender.workers[w].Uploading?
  }

  function BatchOf(a: Agent, i: nat, w: nat): BatchPool.Batch
    requires Uploads(a, i, w)
  {
    BatchSender.BatchAt(a.states[i].sys.sender, a.states[i].sys.sender.workers[w].batch)
  }

  function RequestOf(a: Agent, i: nat, w: nat): CollectorService.Request
    requires Uploads(a, i, w)
  {
    var b := BatchOf(a, i, w);
    CollectorService.Request(a.address, CollectorService.AUDIT_FILE_VERSION, b.recordCount, b.payload)
  }

  /** What the collector queues for a well-formed upload: the decoded records as documents. */
  ghost function TaskOf(r: CollectorService.Request): Collector.Task
    requires CollectorService.WellFormed(r)
  {
    ParsedHeaders(r.records);
    var records := Records(Parse(r.records).events);
    Collector.Task(DocsOf(records, r.serverIp), SizesOf(records))
  }

  lemma ParsedHeaders(data: bytes)
    requires Parse(data).Parsed?
    ensures forall i :: 0 <= i < |Records(Parse(data).events)| ==> HasHeader(Records(Parse(data).events)[i])
  {
    ParseSound(data, 0);
  }

  /** Every upload of every life is well formed, so the collector can only refuse it for want of room, and an
    * ok reply acknowledges exactly the batch's records. All of them were accepted by the agent's sender. */
  lemma UploadsWellFormed(a: Agent, i: nat, w: nat)
    requires Kept(a) && Uploads(a, i, w)
    ensures var b, r := BatchOf(a, i, w), RequestOf(a, i, w);
            && CollectorService.WellFormed(r) && r.recordCount > 0 && Records(Parse(r.records).events) == b.records
            && forall k :: 0 <= k < |b.records| ==> b.records[k] in AgentLife.All(a.states[i])
  {
    hide AgentLife.IsKeptRun, BatchSender.Inv, ValidRecord, AgentLife.PastOk, AgentLife.NumbersOk, AgentRecords.Carries;
    hide AgentAccounting.LaneOk, AgentAccounting.OnlyFragments, AgentAccounting.Balanced, AgentRecords.AllSound;
    hide AgentAccounting.SeqOf;
    AgentLife.InEveryState(a.states, a.steps, i);
    SenderRuns.UploadAccepted(a.states[i].sys.sender, w);
    SenderRuns.UploadDecodes(a.states[i].sys.sender, w);
  }

  /** The task is an upload of one of the agents. */
  ghost predicate Sent(agents: map<string, Agent>, t: Collector.Task)
  {
    exists id, i: nat, w: nat :: SentBy(agents, id, i, w, t)
  }

  ghost predicate SentBy(agents: map<string, Agent>, id: string, i: nat, w: nat, t: Collector.Task)
  {
    && id in agents && Uploads(agents[id], i, w)
    && CollectorService.WellFormed(RequestOf(agents[id], i, w)) && t == TaskOf(RequestOf(agents[id], i, w))
  }

  /** Agents whose checkpoints behaved, each under an address of its own. */
  ghost predicate Sane(agents: map<string, Agent>)
  {
    && (forall id :: id in agents ==> Kept(agents[id]))
    && (forall id, jd :: id in agents && jd in agents && IndexedAs(agents[id]) == IndexedAs(agents[jd]) ==> id == jd)
  }

  /** The document is that of a record which the agent's senders accepted some time. */
  ghost predicate From(agents: map<string, Agent>, id: string, d: Doc)
  {
    && id in agents && agents[id].states != [] && HasHeader(d.record) && d == DocOf(d.record, agents[id].address)
    && d.record in AgentLife.All(agents[id].states[|agents[id].states| - 1])
  }

  lemma SentRecord(agents: map<string, Agent>, id: string, i: nat, w: nat, t: Collector.Task, k: nat)
    requires Sane(agents) && SentBy(agents, id, i, w, t) && k < |t.docs|
    ensures From(agents, id, t.docs[k])
  {
    hide AgentLife.IsKeptRun, AgentLife.All, IndexedAs, Parse, DocOf;
    var a := agents[id];
    UploadsWellFormed(a, i, w);
    ParsedHeaders(RequestOf(a, i, w).records);
    var r := BatchOf(a, i, w).records[k];
    DocRecord(r, a.address);
    AgentLife.OnlyGrows(a.states, a.steps, i, |a.states| - 1);
    assert r in AgentLife.All(a.states[i]);
  }

  lemma DocRecord(record: bytes, address: string)
    requires HasHeader(record)
    ensures DocOf(record, address).record == record
  {
  }

  /** What an agent's document shows of its origin. */
  lemma FromKey(agents: map<string, Agent>, id: string, d: Doc)
    requires Sane(agents) && From(agents, id, d)
    ensures d.key.serverIp == IndexedAs(agents[id]) && d.key.eventSeq == AgentAccounting.SeqOf(d.record)
  {
    hide AgentLife.IsKeptRun, AgentLife.All, AddressText, ValidRecord, Field;
    var a := agents[id];
    AgentLife.NumbersNeverRepeat(a.states, a.steps, |a.states| - 1);
  }

  /** The database key tells the agents' events apart: this is what lets a duplicate-key error count as success. */
  lemma KeysDistinguish(agents: map<string, Agent>, id: string, d: Doc, jd: string, e: Doc)
    requires Sane(agents) && From(agents, id, d) && From(agents, jd, e) && d.key == e.key
    ensures d == e
  {
    hide AgentLife.IsKeptRun, AgentLife.All, IndexedAs, DocOf, ValidRecord, AgentAccounting.SeqOf, AgentRecords.Carries;
    FromKey(agents, id, d);
    FromKey(agents, jd, e);
    var a := agents[id];
    AgentLife.NumbersNeverRepeat(a.states, a.steps, |a.states| - 1);
  }

  ghost predicate FromSome(agents: map<string, Agent>, d: Doc)
  {
    exists id :: From(agents, id, d)
  }

  /** The collectors were sent nothing but uploads of the agents: each any number of times, at any time and in any
    * order, to any of them, also when the agent saw no reply; and so it was before this history began. */
  ghost predicate OnlySent(agents: map<string, Agent>, start: seq<Doc>, steps: seq<Cluster.Step>)
  {
    && (forall d :: d in start ==> FromSome(agents, d))
    && (forall j :: 0 <= j < |steps| && steps[j].Act? && steps[j].step.Upload? ==> Sent(agents, steps[j].step.task))
  }

  lemma SentKnown(agents: map<string, Agent>, t: Collector.Task, d: Doc)
    requires Sane(agents) && Sent(agents, t) && d in t.docs
    ensures FromSome(agents, d)
  {
    hide From, Sane, SentBy;
    var id, j: nat, w: nat :| SentBy(agents, id, j, w, t);
    var k :| 0 <= k < |t.docs| && t.docs[k] == d;
    SentRecord(agents, id, j, w, t, k);
  }

  lemma NextKnown(s: Collector.State, step: Collector.Step, d: Doc)
    requires Collector.Possible(s, step) && d in Collector.Next(s, step).known
    ensures d in s.known || (step.Upload? && d in step.task.docs) || (step.Elsewhere? && d == step.d)
  {
    hide Collector.PhaseOk, Collector.EndOf, Collector.Put, Collector.OnReply;
  }

  /** Whatever is stored or known to a collector came from an agent. */
  ghost predicate AllFrom(agents: map<string, Agent>, c: Cluster.Cluster)
  {
    && (forall d :: d in c.store ==> FromSome(agents, d))
    && (forall n, d :: 0 <= n < |c.nodes| && d in c.nodes[n].known ==> FromSome(agents, d))
  }

  lemma NextAllFrom(agents: map<string, Agent>, c: Cluster.Cluster, a: Cluster.Step)
    requires Sane(agents) && Cluster.Inv(c) && AllFrom(agents, c) && Cluster.Possible(c, a)
    requires a.Act? && a.step.Upload? ==> Sent(agents, a.step.task)
    ensures AllFrom(agents, Cluster.Next(c, a))
  {
    hide FromSome, Sane, Sent, Cluster.Inv, Collector.Possible, Collector.Next, Collector.Initial;
    if a.Act? {
      var t := Collector.Next(c.nodes[a.n], a.step);
      forall d | d in t.known
        ensures FromSome(agents, d)
      {
        NextKnown(c.nodes[a.n], a.step, d);
        if d !in c.nodes[a.n].known {
          SentKnown(agents, a.step.task, d);
        }
      }
      Cluster.NextKeeps(c, a);
      NodeStore(Cluster.Next(c, a), a.n);
      forall m, d | 0 <= m < |c.nodes| && m != a.n && d in Cluster.Seen(c.nodes[m], t.store).known
        ensures FromSome(agents, d)
      {
        if t.store != c.nodes[m].store && t.store != [] {
          Collector.ElsewhereNext(c.nodes[m], t.store[|t.store| - 1]);
          NextKnown(c.nodes[m], Collector.Elsewhere(t.store[|t.store| - 1]), d);
        }
      }
    }
  }

  lemma NodeStore(c: Cluster.Cluster, n: nat)
    requires Cluster.Inv(c) && n < |c.nodes|
    ensures c.nodes[n].store == c.store && Collector.Inv(c.nodes[n])
    ensures UniqueKeys(c.store) && forall d :: d in c.store ==> d in c.nodes[n].known
  {
    hide Collector.Inv, UniqueKeys;
    Cluster.UniqueStore(c.nodes[n]);
  }

  /** Whatever a collector knows, at any time, is the document of a record that some agent accepted. */
  lemma {:induction false} KnownFrom(agents: map<string, Agent>, states: seq<Cluster.Cluster>,
                                     steps: seq<Cluster.Step>, i: nat)
    requires Sane(agents) && Cluster.IsRun(states, steps) && OnlySent(agents, states[0].store, steps) && i < |states|
    ensures AllFrom(agents, states[i])
  {
    hide FromSome, Sane, Cluster.Possible, Cluster.Next, Sent, Cluster.Inv, UniqueKeys;
    if i > 0 {
      KnownFrom(agents, states, steps, i - 1);
      Cluster.InEveryState(states, steps, i - 1);
      NextAllFrom(agents, states[i - 1], steps[i - 1]);
    }
  }

  lemma KnownDistinct(agents: map<string, Agent>, known: set<Doc>)
    requires Sane(agents) && forall d :: d in known ==> FromSome(agents, d)
    ensures Distinguishes(iset d | d in known)
  {
    hide From, Sane;
    forall d, e | d in known && e in known && d.key == e.key
      ensures d == e
    {
      var id :| From(agents, id, d);
      var jd :| From(agents, jd, e);
      KeysDistinguish(agents, id, d, jd, e);
    }
  }

  /** Agents whose checkpoints behaved through any number of crashes and restarts, each under an address of its own, and
    * any number of collectors that write to one collection, come and go, and are sent the agents' uploads any
    * number of times: every record of a task that any of them completed ok is in the collection exactly once, and it
    * holds nothing but records that an agent accepted, each of them once. */
  lemma StoredOnce(agents: map<string, Agent>, states: seq<Cluster.Cluster>, steps: seq<Cluster.Step>, i: nat)
    requires Sane(agents) && Cluster.IsRun(states, steps) && OnlySent(agents, states[0].store, steps) && i < |states|
    ensures forall n, t, k :: 0 <= n < |states[i].nodes| && t in states[i].nodes[n].stored && 0 <= k < |t.docs| ==>
              multiset(states[i].store)[t.docs[k]] == 1
    ensures forall d :: d in states[i].store ==> multiset(states[i].store)[d] == 1 && FromSome(agents, d)
  {
    hide From, Sane, Cluster.IsRun, OnlySent, UniqueKeys, Has, Cluster.Inv, Collector.Inv, FromSome;
    KnownFrom(agents, states, steps, i);
    Cluster.InEveryState(states, steps, i);
    var c := states[i];
    forall n, t, k | 0 <= n < |c.nodes| && t in c.nodes[n].stored && 0 <= k < |t.docs|
      ensures multiset(c.store)[t.docs[k]] == 1
    {
      NodeStore(c, n);
      KnownDistinct(agents, c.nodes[n].known);
      Collector.StoredInState(c.nodes[n], t, k);
    }
    forall d | d in c.store
      ensures multiset(c.store)[d] == 1
    {
      StoreUnique(c);
      Collector.OnceEach(c.store, d);
    }
  }

  lemma StoreUnique(c: Cluster.Cluster)
    requires Cluster.Inv(c)
    ensures UniqueKeys(c.store)
  {
    hide Collector.Inv, UniqueKeys;
  }
}
