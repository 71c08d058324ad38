/** Any number of collectors before one collection: they come and go, and uploads may reach any of them. */
module Cluster {
  import opened MongoSink
  import Collector

  /** `nodes` are the collector processes so far. One that crashed takes no further steps, except that what it had
    * sent to the server may still arrive. */
  datatype Cluster = Cluster(store: seq<Doc>, nodes: seq<Collector.State>)

  datatype Step = Join(node: Collector.State) | Act(n: nat, step: Collector.Step)

  function DocsIn(store: seq<Doc>): set<Doc>
  {
    set d | d in store
  }

  /** A collector starts on the collection as it is. Its own steps are those of the collector. */
  predicate Possible(c: Cluster, a: Step)
  {
    match a
    case Join(node) => Collector.Initial(node) && node.store == c.store && node.known == DocsIn(c.store)
    case Act(n, step) => n < |c.nodes| && !step.Elsewhere? && Collector.Possible(c.nodes[n], step)
  }

  /** What a collector sees of the step of another. */
  function Seen(node: Collector.State, store: seq<Doc>): Collector.State
  {
    if store == node.store || store == [] then node else Collector.Next(node, Collector.Elsewhere(store[|store| - 1]))
  }

  function Next(c: Cluster, a: Step): Cluster
    requires Possible(c, a)
  {
    match a
    case Join(node) => c.(nodes := c.nodes + [node])
    case Act(n, step) =>
      var next := Collector.Next(c.nodes[n], step);
      Cluster(next.store,
              seq(|c.nodes|, m requires 0 <= m < |c.nodes| => if m == n then next else Seen(c.nodes[m], next.store)))
  }

  /** All see the same collection, and each keeps its invariant. */
  predicate Inv(c: Cluster)
  {
    UniqueKeys(c.store) && forall n :: 0 <= n < |c.nodes| ==> c.nodes[n].store == c.store && Collector.Inv(c.nodes[n])
  }

  lemma SeenKeeps(node: Collector.State, store: seq<Doc>)
    requires Collector.Inv(node)
    requires store == node.store
             || (store != [] && store == node.store + [store[|store| - 1]] && !Has(node.store, store[|store| - 1].key))
    ensures Seen(node, store).store == store && Collector.Inv(Seen(node, store))
  {
    hide Collector.Inv, Has, Collector.Next;
    if store != node.store {
      var d := store[|store| - 1];
      Collector.ElsewhereNext(node, d);
      Collector.NextKeeps(node, Collector.Elsewhere(d));
    }
  }

  lemma NextKeeps(c: Cluster, a: Step)
    requires Inv(c) && Possible(c, a)
    ensures Inv(Next(c, a))
  {
    hide Collector.Inv, Collector.Next, Collector.Possible, Seen, Has, UniqueKeys;
    match a {
      case Join(node) =>
        Collector.InitialInv(node);
      case Act(n, step) =>
        var next := Collector.Next(c.nodes[n], step);
        Collector.StoresOne(c.nodes[n], step);
        Collector.NextKeeps(c.nodes[n], step);
        UniqueStore(next);
        forall m | 0 <= m < |c.nodes| && m != n
          ensures Seen(c.nodes[m], next.store).store == next.store && Collector.Inv(Seen(c.nodes[m], next.store))
        {
          SeenKeeps(c.nodes[m], next.store);
        }
    }
  }

  lemma UniqueStore(s: Collector.State)
    requires Collector.Inv(s)
    ensures UniqueKeys(s.store) && forall d :: d in s.store ==> d in s.known
  {
    hide Collector.Conserved, Collector.TasksConserved, Collector.Orderly, Collector.Behind;
  }

  // Runs.

  /** The history of a collection, from before the first collector. */
  predicate IsRun(states: seq<Cluster>, steps: seq<Step>)
  {
    && |states| == |steps| + 1 && states[0].nodes == [] && UniqueKeys(states[0].store)
    && forall i :: 0 <= i < |steps| ==> Possible(states[i], steps[i]) && states[i + 1] == Next(states[i], steps[i])
  }

  lemma {:induction false} InEveryState(states: seq<Cluster>, steps: seq<Step>, i: nat)
    requires IsRun(states, steps) && i < |states|
    ensures Inv(states[i])
  {
    hide Inv, Possible, Next, UniqueKeys;
    if i == 0 {
      NoneYet(states[0]);
    } else {
      InEveryState(states, steps, i - 1);
      NextKeeps(states[i - 1], steps[i - 1]);
    }
  }

  lemma NoneYet(c: Cluster)
    requires c.nodes == [] && UniqueKeys(c.store)
    ensures Inv(c)
  {
  }

  /** Each collector's part in a history is a run of its own, in which the others' documents appear: what is proved of
    * every run of a collector holds beside others too. */
  lemma {:induction false} Projected(states: seq<Cluster>, steps: seq<Step>, i: nat, n: nat)
    returns (own: seq<Collector.State>, ownSteps: seq<Collector.Step>)
    requires IsRun(states, steps) && i < |states| && n < |states[i].nodes|
    ensures Collector.IsRun(own, ownSteps) && own[|ownSteps|] == states[i].nodes[n]
  {
    hide Possible, Next, Collector.Possible, Collector.Next, Inv, Collector.Initial, UniqueKeys;
    var c, a := states[i - 1], steps[i - 1];
    ProjectedStep(c, a, n);
    if n == |c.nodes| {
      own, ownSteps := [states[i].nodes[n]], [];
    } else {
      own, ownSteps := Projected(states, steps, i - 1, n);
      var next := states[i].nodes[n];
      if next != c.nodes[n] {
        var step := if a.Act? && a.n == n then a.step else Collector.Elsewhere(states[i].store[|states[i].store| - 1]);
        own, ownSteps := own + [next], ownSteps + [step];
      }
    }
  }

  lemma ProjectedStep(c: Cluster, a: Step, n: nat)
    requires Possible(c, a) && n < |Next(c, a).nodes|
    ensures n >= |c.nodes| ==> n == |c.nodes| && Collector.Initial(Next(c, a).nodes[n])
    ensures n < |c.nodes| && Next(c, a).nodes[n] != c.nodes[n] && !(a.Act? && a.n == n) ==>
              var store := Next(c, a).store;
              store != [] && Collector.Possible(c.nodes[n], Collector.Elsewhere(store[|store| - 1]))
              && Next(c, a).nodes[n] == Collector.Next(c.nodes[n], Collector.Elsewhere(store[|store| - 1]))
    ensures n < |c.nodes| && a.Act? && a.n == n ==>
              Collector.Possible(c.nodes[n], a.step) && Next(c, a).nodes[n] == Collector.Next(c.nodes[n], a.step)
  {
    hide Collector.Next, Collector.Initial;
  }
}
