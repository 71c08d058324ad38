/** What an agent counts as acknowledged is with the collector: stored, given up and counted, or on its way. */
module Acknowledged {
  import opened Bytes
  import opened AuditRecord
  import opened RecordParser
  import opened MongoSink
  import opened EndToEnd
  import Acc = AgentAccounting
  import Life = AgentLife
  import Sender = BatchSender
  import Invariant = SenderInvariant
  import Runs = SenderRuns
  import BatchPool
  import BoundedQueue
  import Cluster
  import Collector
  import CollectorService
  import Reassembly

  // Where acknowledged records come from.

  lemma SubmitAcknowledges(s: Sender.Sender, record: bytes, expired: bool)
    requires s.pool.Valid() && (s.current.Some? ==> s.current.value < |s.pool.batches|)
    ensures Sender.Submit(s, record, expired).0.acknowledged == s.acknowledged
  {
    hide BatchPool.Pool.Valid, BatchPool.Pool.Acquired, BatchPool.Pool.Appended, Sender.BatchAt;
  }

  /** Only an ok reply makes records acknowledged, those of its batch. */
  lemma NextAcknowledged(s: Sender.Sender, action: Runs.Action, r: bytes)
    requires Sender.Inv(s) && Runs.Possible(s, action) && !action.Start? && !action.SubmitRecord?
    requires r in Runs.Next(s, action).acknowledged
    ensures r in s.acknowledged || (action.Succeed? && r in Sender.BatchAt(s, s.workers[action.w].batch).records)
  {
    hide Sender.Inv, BatchPool.Pool.Valid, BatchPool.Pool.Released, Sender.BatchAt, Sender.ReleaseAll;
  }

  lemma ConsumedAcknowledges(s: Acc.System, grant: Reassembly.Grant, expired: bool)
    requires s.ring != [] && Reassembly.AgentOk(s.agent) && Reassembly.RecordOk(s.ring[0])
             && Reassembly.GrantOk(s.ring[0], grant)
    requires Sender.Inv(s.sender)
    ensures Acc.Consumed(s, grant, expired).sender.acknowledged == s.sender.acknowledged
  {
    hide Sender.Inv, Reassembly.HandleEvent, Reassembly.AgentOk, Reassembly.RecordOk, Reassembly.GrantOk, Sender.Submit;
    var out := Reassembly.HandleEvent(s.agent, Reassembly.Input(s.ring[0], grant, true)).1;
    if out != [] {
      Invariant.SubmitKeeps(s.sender, out[0].record, expired);
      SubmitAcknowledges(s.sender, out[0].record, expired);
    }
  }

  lemma MovesAcknowledged(s: Acc.System, step: Acc.Step, t: Acc.System, r: bytes)
    requires Acc.Inv(s) && Acc.Moves(s, step, t) && r in t.sender.acknowledged && r !in s.sender.acknowledged
    ensures step.SenderActs? && step.action.Succeed? && Runs.Possible(s.sender, step.action)
    ensures r in Sender.BatchAt(s.sender, s.sender.workers[step.action.w].batch).records
  {
    hide Acc.Inv, Acc.Consumed, Acc.CanCapture, Sender.Inv, Reassembly.AgentOk, Reassembly.RecordOk;
    hide Reassembly.GrantOk, Runs.Next;
    Acc.IsReady(s);
    match step {
      case AgentConsumes(grant, expired) => ConsumedAcknowledges(s, grant, expired);
      case SenderActs(action) => NextAcknowledged(s.sender, action, r);
      case _ =>
    }
  }

  lemma NoneAcknowledged(sys: Acc.System)
    requires Acc.Initial(sys)
    ensures sys.sender.acknowledged == multiset{}
  {
    hide Sender.RecordsIn, Sender.RecordsHeld, Sender.HeldBy, BatchPool.Pool.Valid, Sender.BytesIn;
    assert sys.sender.acknowledged <= sys.sender.accepted;
  }

  /** In step `j` of its life the agent takes an ok reply to the upload of worker `w`. */
  ghost predicate Succeeds(a: Agent, j: nat, w: nat)
  {
    j < |a.steps| && a.steps[j] == Life.Act(Acc.SenderActs(Runs.Succeed(w))) && Uploads(a, j, w)
  }

  /** Only booting, which acknowledges nothing, and the sender's ok replies change what is acknowledged. */
  lemma DoesAcknowledge(l: Life.Life, step: Life.Step, m: Life.Life, r: bytes)
    requires Life.Does(l, step, m) && m.check.running && r in m.sys.sender.acknowledged
    ensures step.Boot? || step.Act? || (l.check.running && r in l.sys.sender.acknowledged)
    ensures step.Act? ==> l.check.running && Acc.Moves(l.sys, step.step, m.sys)
    ensures step.Boot? ==> Acc.Initial(m.sys)
  {
    hide Acc.Moves, Acc.Initial, Acc.Possible;
  }

  lemma FirstNotRunning(a: Agent)
    requires Kept(a)
    ensures |a.states| > 0 && !a.states[0].check.running
  {
    hide Life.Does, Life.KeptBy;
  }

  lemma StepOf(a: Agent, i: nat)
    requires Kept(a) && 0 < i < |a.states|
    ensures |a.states| == |a.steps| + 1 && Life.Does(a.states[i - 1], a.steps[i - 1], a.states[i])
  {
    hide Life.Does, Life.KeptBy, Life.Initial;
  }

  /** Every acknowledged record was in an upload that got an ok reply. */
  lemma {:induction false} WhenAcknowledged(a: Agent, i: nat, r: bytes) returns (j: nat, w: nat)
    requires Kept(a) && i < |a.states| && a.states[i].check.running && r in a.states[i].sys.sender.acknowledged
    ensures Succeeds(a, j, w) && r in BatchOf(a, j, w).records
  {
    hide Acc.Inv, Acc.Moves, Acc.Initial, Life.Does, Sender.BatchAt, Kept;
    FirstNotRunning(a);
    StepOf(a, i);
    var l, m, step := a.states[i - 1], a.states[i], a.steps[i - 1];
    DoesAcknowledge(l, step, m, r);
    if l.check.running && r in l.sys.sender.acknowledged {
      j, w := WhenAcknowledged(a, i - 1, r);
    } else if step.Boot? {
      NoneAcknowledged(m.sys);
      assert false;
    } else {
      LifeInv(a, i - 1);
      MovesAcknowledged(l.sys, step.step, m.sys, r);
      j, w := i - 1, step.step.action.w;
    }
  }

  lemma LifeInv(a: Agent, i: nat)
    requires Kept(a) && i < |a.states| && a.states[i].check.running
    ensures Acc.Inv(a.states[i].sys)
  {
    hide Acc.Inv, Life.IsKeptRun;
    Life.InEveryState(a.states, a.steps, i);
  }

  // What the collectors have of them.

  /** Collector `n` takes in the upload in step `k` of the history: only then is its reply ok. */
  ghost predicate TakesIn(states: seq<Cluster.Cluster>, steps: seq<Cluster.Step>, k: nat, n: nat, a: Agent, j: nat,
                          w: nat)
    requires Uploads(a, j, w)
  {
    && CollectorService.WellFormed(RequestOf(a, j, w)) && k < |steps| && k < |states| && n < |states[k].nodes|
    && steps[k] == Cluster.Act(n, Collector.Upload(TaskOf(RequestOf(a, j, w))))
    && BoundedQueue.Apply(states[k].nodes[n].queue,
                          BoundedQueue.TryPush(TaskOf(RequestOf(a, j, w)))).1 != BoundedQueue.Refused
  }

  /** No agent gets an ok reply to an upload that no collector took in. */
  ghost predicate RepliesTrue(agents: map<string, Agent>, states: seq<Cluster.Cluster>, steps: seq<Cluster.Step>)
  {
    forall id, j: nat, w: nat :: id in agents && Succeeds(agents[id], j, w) ==>
      exists k: nat, n: nat :: TakesIn(states, steps, k, n, agents[id], j, w)
  }

  lemma TakenIn(states: seq<Cluster.Cluster>, steps: seq<Cluster.Step>, k: nat, n: nat, a: Agent, j: nat, w: nat)
    requires Uploads(a, j, w) && Cluster.IsRun(states, steps) && TakesIn(states, steps, k, n, a, j, w)
    ensures n < |states[k + 1].nodes| && TaskOf(RequestOf(a, j, w)) in states[k + 1].nodes[n].submitted
  {
    hide TaskOf, CollectorService.WellFormed, RequestOf, Cluster.Seen;
  }

  lemma NextSubmitted(s: Collector.State, step: Collector.Step)
    requires Collector.Possible(s, step)
    ensures s.submitted <= Collector.Next(s, step).submitted
  {
    hide Collector.PhaseOk, Collector.EndOf, Collector.Put, Collector.OnReply;
  }

  lemma ClusterSubmitted(c: Cluster.Cluster, a: Cluster.Step, n: nat)
    requires Cluster.Possible(c, a) && n < |c.nodes|
    ensures n < |Cluster.Next(c, a).nodes| && c.nodes[n].submitted <= Cluster.Next(c, a).nodes[n].submitted
  {
    hide Collector.Possible, Collector.Next, Collector.Initial;
    if a.Act? {
      var store := Collector.Next(c.nodes[a.n], a.step).store;
      if a.n == n {
        NextSubmitted(c.nodes[n], a.step);
      } else if store != c.nodes[n].store && store != [] {
        Collector.ElsewhereNext(c.nodes[n], store[|store| - 1]);
        NextSubmitted(c.nodes[n], Collector.Elsewhere(store[|store| - 1]));
      }
    }
  }

  lemma {:induction false} SubmittedGrows(states: seq<Cluster.Cluster>, steps: seq<Cluster.Step>, i: nat, j: nat,
                                          n: nat)
    requires Cluster.IsRun(states, steps) && i <= j < |states| && n < |states[i].nodes|
    ensures n < |states[j].nodes| && states[i].nodes[n].submitted <= states[j].nodes[n].submitted
    decreases j
  {
    hide Cluster.Possible, Cluster.Next, UniqueKeys;
    if i < j {
      SubmittedGrows(states, steps, i, j - 1, n);
      ClusterSubmitted(states[j - 1], steps[j - 1], n);
    }
  }

  /** Collector `n` has a task with the document in its queue, or a worker of it is at it: if it crashes now, this
    * is lost. */
  ghost predicate InHand(s: Collector.State, d: Doc)
  {
    exists t :: (t in s.queue.items || t in Collector.HeldTasks(s.workers)) && d in t.docs
  }

  ghost predicate GivenUp(s: Collector.State, d: Doc)
  {
    exists t :: t in s.failed && d in t.docs
  }

  lemma TaskSomewhere(s: Collector.State, t: Collector.Task, k: nat)
    requires Collector.Inv(s) && t in s.submitted && k < |t.docs|
    ensures t in s.stored || GivenUp(s, t.docs[k]) || InHand(s, t.docs[k])
    ensures Collector.ShutDown(s) ==> t in s.stored || GivenUp(s, t.docs[k])
  {
    hide Collector.StoreOk, Collector.Conserved, Collector.HeldTasks;
    if Collector.ShutDown(s) {
      assert s.workers[0].Exited?;
      Collector.AllIdle(s.workers);
    }
  }

  /** No acknowledged record is lost silently. If agents only get ok replies for what some collector took in, then
    * each record that an agent counts as acknowledged at any time of its life is at the end of any history in the
    * collection, once, or in a task that a collector gave up after its last attempt and counted as such, or still
    * in the hands of a collector that has not shut down: it can only get lost with a collector that crashes. */
  lemma NothingLostSilently(agents: map<string, Agent>, states: seq<Cluster.Cluster>, steps: seq<Cluster.Step>,
                            id: string, i: nat, r: bytes)
    requires Sane(agents) && Cluster.IsRun(states, steps) && OnlySent(agents, states[0].store, steps)
             && RepliesTrue(agents, states, steps)
    requires id in agents && i < |agents[id].states| && agents[id].states[i].check.running
    requires r in agents[id].states[i].sys.sender.acknowledged
    ensures HasHeader(r)
    ensures var end, d := states[|steps|], DocOf(r, agents[id].address);
            || multiset(end.store)[d] == 1
            || exists n :: 0 <= n < |end.nodes|
                           && (GivenUp(end.nodes[n], d)
                               || (InHand(end.nodes[n], d) && !Collector.ShutDown(end.nodes[n])))
  {
    hide Life.IsKeptRun, Cluster.IsRun, Cluster.Inv, DocOf, Uploads, BatchOf, Parse, OnlySent, From, IndexedAs;
    hide GivenUp, InHand;
    hide Collector.ShutDown, Collector.Inv, UniqueKeys;
    var a, last := agents[id], |steps|;
    var j, w := WhenAcknowledged(a, i, r);
    var k: nat, n: nat :| TakesIn(states, steps, k, n, a, j, w);
    RunLength(states, steps);
    TakenIn(states, steps, k, n, a, j, w);
    SubmittedGrows(states, steps, k + 1, last, n);
    Cluster.InEveryState(states, steps, last);
    NodeStore(states[last], n);
    var at := InTask(a, j, w, r);
    TaskSomewhere(states[last].nodes[n], TaskOf(RequestOf(a, j, w)), at);
    StoredOnce(agents, states, steps, last);
  }

  lemma RunLength(states: seq<Cluster.Cluster>, steps: seq<Cluster.Step>)
    requires Cluster.IsRun(states, steps)
    ensures |states| == |steps| + 1
  {
    hide Cluster.Possible, Cluster.Next, UniqueKeys;
  }

  /** The record's document is one of the task's. */
  lemma InTask(a: Agent, j: nat, w: nat, r: bytes) returns (n: nat)
    requires Kept(a) && Uploads(a, j, w) && r in BatchOf(a, j, w).records
    ensures HasHeader(r) && CollectorService.WellFormed(RequestOf(a, j, w))
    ensures var docs := TaskOf(RequestOf(a, j, w)).docs; n < |docs| && docs[n] == DocOf(r, a.address)
  {
    hide Life.IsKeptRun, DocOf, Parse, BatchOf;
    UploadsWellFormed(a, j, w);
    ParsedHeaders(RequestOf(a, j, w).records);
    n :| n < |BatchOf(a, j, w).records| && BatchOf(a, j, w).records[n] == r;
  }
}
