/** What the collector's counters come to over whole runs: each attempt is made, each outcome is booked, and shutdown
  * ends. */
module CollectorProgress {
  import opened MongoSink
  import opened Collector

  /** The step is the worker's own. */
  predicate Own(a: Step, w: nat)
  {
    match a
    case TakeTask(v) => v == w
    case ServeOne(v, _) => v == w
    case Answer(v, _, _) => v == w
    case Break(v) => v == w
    case CountDone(v) => v == w
    case _ => false
  }

  predicate Worker(a: Step)
  {
    a.TakeTask? || a.ServeOne? || a.Answer? || a.Break? || a.CountDone?
  }

  /** An answer that the worker does not take for success, or none. */
  predicate Fails(s: State, a: Step, w: nat)
  {
    && w < |s.workers| && s.workers[w].Sending?
    && (a == Break(w) || (a.Answer? && a.w == w
                          && !ChunkAccepted(ReplyOf(s.workers[w].errors, a.concernMet, a.listsNone))))
  }

  lemma OtherWorkers(s: State, a: Step, w: nat)
    requires Possible(s, a) && w < |s.workers| && !Own(a, w)
    ensures w < |Next(s, a).workers| && Next(s, a).workers[w] == s.workers[w]
  {
    hide PhaseOk, EndOf, Put, DocSet, OnReply, Begin, ErrorOf;
  }

  lemma SameCount(s: State, a: Step)
    requires Possible(s, a)
    ensures |Next(s, a).workers| == |s.workers| && Next(s, a).limits == s.limits
  {
    hide PhaseOk, EndOf, Put, DocSet, OnReply, Begin, ErrorOf;
  }

  /** The task is sent again from its first document, or given up if this was the fourth attempt. */
  function AfterFailure(p: Phase): Phase
    requires p.Sending?
  {
    if p.attempt < 3 then Sending(p.task, p.attempt + 1, 0, 0, []) else Finished(p.task, false)
  }

  /** The next chunk is sent, or the task is done. */
  function AfterSuccess(p: Phase): Phase
    requires p.Sending?
  {
    if p.at == |p.task.docs| then Finished(p.task, true) else Sending(p.task, p.attempt, p.at, p.at, [])
  }

  /** What a worker's own step does to it. An idle worker takes the first task of the queue, or leaves when there is
    * none and none can come; a failed attempt, and nothing else, sends the task again from its first document, or
    * gives it up if it was the fourth. */
  lemma OwnStep(s: State, a: Step, w: nat)
    requires Possible(s, a) && Own(a, w)
    ensures w < |s.workers| == |Next(s, a).workers|
    ensures var p, p' := s.workers[w], Next(s, a).workers[w];
            match a
            case TakeTask(_) =>
              if s.queue.items == [] then s.queue.closed && p' == Exited
              else (if s.queue.items[0].docs == [] then p' == Finished(s.queue.items[0], true)
                    else p' == Sending(s.queue.items[0], 0, 0, 0, []))
            case ServeOne(_, _) => p'.Sending? && p' == p.(at := p.at + 1, errors := p'.errors)
            case Answer(_, _, _) => p.Sending? && p' == if Fails(s, a, w) then AfterFailure(p) else AfterSuccess(p)
            case Break(_) => p.Sending? && Fails(s, a, w) && p' == AfterFailure(p)
            case CountDone(_) => p' == Idle
            case _ => true
  {
    hide PhaseOk, EndOf, Put, DocSet, ErrorOf, ChunkAccepted, ReplyOf;
  }

  // Attempts.

  /** Failed attempts of worker `w` at the task it has at step `i`. */
  function Failures(states: seq<State>, steps: seq<Step>, w: nat, i: nat): nat
    requires i <= |steps| < |states|
  {
    if i == 0 then 0
    else if steps[i - 1] == TakeTask(w) then 0
    else Failures(states, steps, w, i - 1) + if Fails(states[i - 1], steps[i - 1], w) then 1 else 0
  }

  /** Four attempts, no more and no less, before a task is given up. */
  predicate Tallied(p: Phase, failures: nat)
  {
    match p
    case Sending(_, attempt, _, _, _) => failures == attempt < 4
    case Finished(_, ok) => if ok then failures < 4 else failures == 4
    case _ => true
  }

  lemma OwnTally(s: State, a: Step, w: nat, before: nat, now: nat)
    requires Possible(s, a) && Own(a, w) && w < |s.workers| && Tallied(s.workers[w], before)
    requires now == if a.TakeTask? then 0 else before + if Fails(s, a, w) then 1 else 0
    ensures w < |Next(s, a).workers| && Tallied(Next(s, a).workers[w], now)
  {
    hide Possible, Next, Fails;
    OwnStep(s, a, w);
    NeedsWorker(s, a, w);
  }

  lemma NeedsWorker(s: State, a: Step, w: nat)
    requires Possible(s, a) && Own(a, w)
    ensures w < |s.workers|
    ensures match a
            case TakeTask(_) => s.workers[w].Idle?
            case CountDone(_) => s.workers[w].Finished?
            case _ => s.workers[w].Sending?
    ensures !a.Answer? && !a.Break? ==> !Fails(s, a, w)
  {
    hide PhaseOk, EndOf;
  }

  lemma NotOwnFails(s: State, a: Step, w: nat)
    requires !Own(a, w)
    ensures !Fails(s, a, w) && a != TakeTask(w)
  {
    hide ChunkAccepted, ReplyOf;
  }

  /** Whoever is at a task, at any time of any run, has made as many failed attempts at it as its attempt number says; a
    * task is given up when four attempts have failed, and then only. */
  lemma {:induction false} AttemptsCount(states: seq<State>, steps: seq<Step>, i: nat, w: nat)
    requires Collector.IsRun(states, steps) && i < |states| && w < |states[i].workers|
    ensures Tallied(states[i].workers[w], Failures(states, steps, w, i))
  {
    hide Possible, Next, Fails, Tallied, Own, Initial;
    if i == 0 {
      FirstIdle(states[0], w);
    } else {
      var s, a := states[i - 1], steps[i - 1];
      SameCount(s, a);
      AttemptsCount(states, steps, i - 1, w);
      if Own(a, w) {
        OwnIs(a, w);
        OwnTally(s, a, w, Failures(states, steps, w, i - 1), Failures(states, steps, w, i));
      } else {
        OtherWorkers(s, a, w);
        NotOwnFails(s, a, w);
      }
    }
  }

  lemma OwnIs(a: Step, w: nat)
    requires Own(a, w)
    ensures a.TakeTask? <==> a == TakeTask(w)
  {
  }

  lemma FirstIdle(s: State, w: nat)
    requires Initial(s) && w < |s.workers|
    ensures Tallied(s.workers[w], 0)
  {
    hide UniqueKeys;
  }

  // The books.

  /** What a run has queued, refused, stored and given up, read off its steps. */
  datatype Books = Books(taken: nat, refused: nat, persisted: nat, failed: nat, submitted: multiset<Task>,
                         stored: multiset<Task>, lost: multiset<Task>)

  function BooksOf(states: seq<State>, steps: seq<Step>, i: nat): Books
    requires i <= |steps| < |states|
  {
    if i == 0 then Books(0, 0, 0, 0, multiset{}, multiset{}, multiset{})
    else
      var s, b := states[i - 1], BooksOf(states, steps, i - 1);
      match steps[i - 1]
      case Upload(t) =>
        if s.queue.closed || |s.queue.items| >= s.queue.capacity then b.(refused := b.refused + |t.docs|)
        else b.(taken := b.taken + |t.docs|, submitted := b.submitted + multiset{t})
      case CountDone(w) =>
        if w < |s.workers| && s.workers[w].Finished? then
          var t := s.workers[w].task;
          if s.workers[w].ok then b.(persisted := b.persisted + |t.docs|, stored := b.stored + multiset{t})
          else b.(failed := b.failed + |t.docs|, lost := b.lost + multiset{t})
        else b
      case _ => b
  }

  predicate Booked(s: State, b: Books)
  {
    && s.accepted + Total(s.between) == b.taken && s.rejected == b.refused
    && s.persisted == b.persisted && s.dbFailed == b.failed
    && s.submitted == b.submitted && s.stored == b.stored && s.failed == b.lost
  }

  lemma UploadBooks(s: State, t: Task, b: Books)
    requires Booked(s, b) && Possible(s, Upload(t))
    ensures Booked(Next(s, Upload(t)),
                   if s.queue.closed || |s.queue.items| >= s.queue.capacity then b.(refused := b.refused + |t.docs|)
                   else b.(taken := b.taken + |t.docs|, submitted := b.submitted + multiset{t}))
  {
    hide Total, DocSet;
    TotalAppend(s.between, |t.docs|);
  }

  lemma CountBooks(s: State, i: nat, b: Books)
    requires Booked(s, b) && Possible(s, CountAccepted(i))
    ensures Booked(Next(s, CountAccepted(i)), b)
  {
    hide Total;
    TotalRemove(s.between, i);
  }

  lemma DoneBooks(s: State, w: nat, b: Books)
    requires Booked(s, b) && Possible(s, CountDone(w))
    ensures Booked(Next(s, CountDone(w)),
                   var t := s.workers[w].task;
                   if s.workers[w].ok then b.(persisted := b.persisted + |t.docs|, stored := b.stored + multiset{t})
                   else b.(failed := b.failed + |t.docs|, lost := b.lost + multiset{t}))
  {
    hide Total;
  }

  lemma OtherBooks(s: State, a: Step, b: Books)
    requires Booked(s, b) && Possible(s, a) && !a.Upload? && !a.CountAccepted? && !a.CountDone?
    ensures Booked(Next(s, a), b)
  {
    hide Total, PhaseOk, EndOf, Put, DocSet, OnReply, Begin, ErrorOf;
  }

  /** In every state of every run the counters are what the run's own steps come to: records queued, refused, stored and
    * given up; and so are the tasks. */
  lemma {:induction false} BooksAreTrue(states: seq<State>, steps: seq<Step>, i: nat)
    requires Collector.IsRun(states, steps) && i < |states|
    ensures Booked(states[i], BooksOf(states, steps, i))
  {
    hide Possible, Next, Booked, Initial;
    if i == 0 {
      FirstBooks(states[0]);
    } else {
      BooksAreTrue(states, steps, i - 1);
      var s, a, b := states[i - 1], steps[i - 1], BooksOf(states, steps, i - 1);
      match a {
        case Upload(t) => UploadBooks(s, t, b);
        case CountAccepted(k) => CountBooks(s, k, b);
        case CountDone(w) =>
          NeedsWorker(s, a, w);
          DoneBooks(s, w, b);
        case _ => OtherBooks(s, a, b);
      }
    }
  }

  lemma FirstBooks(s: State)
    requires Initial(s)
    ensures Booked(s, Books(0, 0, 0, 0, multiset{}, multiset{}, multiset{}))
  {
    hide UniqueKeys;
  }

  // Shutdown ends.

  /** Steps that a worker can still have to take at its task, and what a task in the queue can cost. */
  function Effort(p: Phase): nat
  {
    match p
    case Exited => 0
    case Idle => 1
    case Finished(_, _) => 2
    case Sending(t, attempt, start, at, _) =>
      3 + (if attempt < 4 then (3 - attempt) * (2 * |t.docs| + 2) else 0)
      + (if at < |t.docs| then 2 * (|t.docs| - at) else 0) + (if at > start then 1 else 0)
  }

  function Cost(t: Task): nat
  {
    8 * |t.docs| + 9
  }

  function Costs(items: seq<Task>): nat
  {
    if items == [] then 0 else Cost(items[0]) + Costs(items[1..])
  }

  function Efforts(workers: seq<Phase>): nat
  {
    if workers == [] then 0 else Effort(workers[0]) + Efforts(workers[1..])
  }

  function Remaining(s: State): nat
  {
    Efforts(s.workers) + Costs(s.queue.items)
  }

  lemma {:induction false} EffortExchange(workers: seq<Phase>, w: nat, p: Phase)
    requires w < |workers|
    ensures Efforts(workers[w := p]) + Effort(workers[w]) == Efforts(workers) + Effort(p)
    decreases w
  {
    hide Effort;
    assert workers[w := p][0] == if w == 0 then p else workers[0];
    if w == 0 {
      assert workers[w := p][1..] == workers[1..];
    } else {
      assert workers[w := p][1..] == workers[1..][w - 1 := p];
      EffortExchange(workers[1..], w - 1, p);
    }
  }

  lemma SendingBounds(s: State, a: Step, w: nat)
    requires Possible(s, a) && Own(a, w) && (a.ServeOne? || a.Answer? || a.Break?)
    ensures w < |s.workers| && s.workers[w].Sending?
    ensures var p := s.workers[w]; p.attempt < 4 && p.start <= p.at <= |p.task.docs| && p.task.docs != []
    ensures a.ServeOne? ==> s.workers[w].at < |s.workers[w].task.docs|
    ensures a.Answer? ==> s.workers[w].at > s.workers[w].start
  {
  }

  /** A worker's own step lowers its effort, or takes more than that from the queue. */
  lemma OwnEffort(s: State, a: Step, w: nat)
    requires Possible(s, a) && Own(a, w) && w < |s.workers| == |Next(s, a).workers|
    ensures Effort(Next(s, a).workers[w]) + Costs(Next(s, a).queue.items) < Effort(s.workers[w]) + Costs(s.queue.items)
  {
    hide Possible, Next, Costs, Fails;
    OwnStep(s, a, w);
    NeedsWorker(s, a, w);
    QueueFrame(s, a, w);
    if a.TakeTask? {
      if s.queue.items != [] {
        CostHead(s.queue.items);
      }
    } else if !a.CountDone? {
      SendingBounds(s, a, w);
      SendingEffort(s.workers[w], Next(s, a).workers[w]);
    }
  }

  lemma CostHead(items: seq<Task>)
    requires items != []
    ensures Costs(items) == Cost(items[0]) + Costs(items[1..])
  {
  }

  lemma QueueFrame(s: State, a: Step, w: nat)
    requires Possible(s, a) && Own(a, w)
    ensures Next(s, a).queue.items == (if a.TakeTask? && s.queue.items != [] then s.queue.items[1..] else s.queue.items)
  {
    hide PhaseOk, EndOf, Put, DocSet, OnReply, Begin, ErrorOf;
  }

  /** One document further, one chunk further, one attempt less, or done. */
  lemma SendingEffort(p: Phase, q: Phase)
    requires p.Sending? && p.attempt < 4 && p.start <= p.at <= |p.task.docs| && p.task.docs != []
    requires || (p.at < |p.task.docs| && q.Sending? && q == p.(at := p.at + 1, errors := q.errors))
             || (p.at > p.start && q == Sending(p.task, p.attempt, p.at, p.at, []))
             || (p.attempt < 3 && q == Sending(p.task, p.attempt + 1, 0, 0, []))
             || q.Finished?
    ensures Effort(q) < Effort(p)
  {
    var n := 2 * |p.task.docs| + 2;
    if p.attempt < 3 {
      assert (3 - p.attempt) * n == (3 - (p.attempt + 1)) * n + n;
    }
  }

  /** Once the queue is closed, every step of a worker brings it nearer to the end, and no other step takes it back. */
  lemma ClosedMoves(s: State, a: Step)
    requires Possible(s, a) && s.queue.closed
    ensures Next(s, a).queue.closed
    ensures Worker(a) ==> Remaining(Next(s, a)) < Remaining(s)
    ensures !Worker(a) ==> Remaining(Next(s, a)) == Remaining(s)
  {
    hide Possible, Next, Efforts, Effort, Costs;
    var t := Next(s, a);
    SameCount(s, a);
    ClosedFrame(s, a);
    if Worker(a) {
      var w := a.w;
      OwnStep(s, a, w);
      forall v | 0 <= v < |s.workers| && v != w
        ensures t.workers[v] == s.workers[v]
      {
        OtherWorkers(s, a, v);
      }
      assert t.workers == s.workers[w := t.workers[w]];
      EffortExchange(s.workers, w, t.workers[w]);
      OwnEffort(s, a, w);
    } else {
      forall v | 0 <= v < |s.workers|
        ensures t.workers[v] == s.workers[v]
      {
        OtherWorkers(s, a, v);
      }
      assert t.workers == s.workers;
    }
  }

  lemma ClosedFrame(s: State, a: Step)
    requires Possible(s, a) && s.queue.closed
    ensures Next(s, a).queue.closed && (!Worker(a) ==> Next(s, a).queue.items == s.queue.items)
  {
    hide PhaseOk, EndOf, Put, DocSet, OnReply, Begin, ErrorOf;
  }

  /** Nor does any worker get stuck: as long as one has not left, it has a step to take. */
  lemma SomeoneMoves(s: State, w: nat) returns (a: Step)
    requires Inv(s) && s.queue.closed && w < |s.workers| && !s.workers[w].Exited?
    ensures Possible(s, a) && Own(a, w)
  {
    hide Conserved, TasksConserved, Orderly, UniqueKeys;
    match s.workers[w] {
      case Idle => a := TakeTask(w);
      case Sending(_, _, _, _, _) =>
        assert Behind(s, s.workers[w]);
        a := Break(w);
      case Finished(_, _) => a := CountDone(w);
      case Exited => assert false;
    }
  }

  function WorkerSteps(steps: seq<Step>, i: nat, j: nat): nat
    requires i <= j <= |steps|
    decreases j
  {
    if i == j then 0 else WorkerSteps(steps, i, j - 1) + if Worker(steps[j - 1]) then 1 else 0
  }

  /** Shutdown ends: from the closing of the queue on the workers have only so many steps left among them, whatever
    * fails and whatever comes in between; and until all have left, one of them has a step to take (`SomeoneMoves`). */
  lemma {:induction false} ShutdownEnds(states: seq<State>, steps: seq<Step>, i: nat, j: nat)
    requires Collector.IsRun(states, steps) && i < j < |states| && steps[i] == CloseQueue
    ensures states[j].queue.closed
    ensures WorkerSteps(steps, i + 1, j) + Remaining(states[j]) <= Remaining(states[i + 1])
    decreases j
  {
    hide Possible, Next, Remaining, Worker;
    if i + 1 == j {
      CloseCloses(states[i]);
    } else {
      ShutdownEnds(states, steps, i, j - 1);
      ClosedMoves(states[j - 1], steps[j - 1]);
    }
  }

  lemma CloseCloses(s: State)
    requires Possible(s, CloseQueue)
    ensures Next(s, CloseQueue).queue.closed && Next(s, CloseQueue).queue.items == s.queue.items
  {
  }
}
