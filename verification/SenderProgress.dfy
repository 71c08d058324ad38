/** What the sender's records come to over whole runs: each attempt is made, each outcome is booked, and stop ends. */
module SenderProgress {
  import opened Bytes
  import opened BatchPool
  import opened BatchSender
  import opened SenderInvariant
  import opened SenderOrder
  import opened SenderRuns

  /** Failed attempts of worker `w` at the batch it has at step `i`: those since it last took one. */
  function Failures(actions: seq<Action>, w: nat, i: nat): nat
    requires i <= |actions|
  {
    if i == 0 then 0
    else
      match actions[i - 1]
      case Fail(v) => Failures(actions, w, i - 1) + (if v == w then 1 else 0)
      case PopReady(v, _) => if v == w then 0 else Failures(actions, w, i - 1)
      case _ => Failures(actions, w, i - 1)
  }

  /** The phase counts the failures. */
  predicate Tallied(p: Phase, failures: nat, maxRetries: nat)
  {
    match p
    case Uploading(_, attempt) => failures == attempt <= maxRetries
    case Exhausted(_) => failures == maxRetries + 1
    case _ => true
  }

  /** The step is the worker's own. */
  predicate Own(a: Action, w: nat)
  {
    match a
    case PopReady(v, _) => v == w
    case Fail(v) => v == w
    case Succeed(v) => v == w
    case GiveUp(v) => v == w
    case Return(v) => v == w
    case _ => false
  }

  /** The parts that submissions and seals leave alone. */
  predicate SameFrame(s: Sender, t: Sender)
  {
    && t.workers == s.workers && t.maxRetries == s.maxRetries && t.started == s.started && t.stopping == s.stopping
    && t.acknowledged == s.acknowledged && t.dropped == s.dropped
  }

  lemma RoomFrame(s: Sender, size: nat, expired: bool)
    ensures SameFrame(s, MakeRoom(s, size, expired))
  {
    hide BatchAt, Seal;
    SealFrame(s);
    SealFrame(if expired then Seal(s) else s);
  }

  lemma OpenFrame(s: Sender)
    requires s.pool.Valid()
    ensures SameFrame(s, Open(s))
  {
    hide Pool.Valid, Pool.Acquired;
  }

  lemma AddFrame(s: Sender, record: bytes)
    requires s.current.Some? && s.current.value < |s.pool.batches|
    ensures SameFrame(s, Add(s, record))
  {
    hide Pool.Appended, BatchAt, Seal;
    SealFrame(Appended(s, record));
  }

  lemma SubmitFrame(s: Sender, record: bytes, expired: bool)
    requires Inv(s) && s.pool.Valid() && (s.current.Some? ==> s.current.value < |s.pool.batches|)
    ensures SameFrame(s, Submit(s, record, expired).0)
  {
    hide Inv, Pool.Valid, MakeRoom, Open, Add;
    RoomFrame(s, |record|, expired);
    var m := MakeRoom(s, |record|, expired);
    SubmitKeeps(s, record, expired);
    if record != [] && s.started && !s.stopping && |record| <= s.batchBytes {
      MakeRoomKeeps(s, |record|, expired);
      SubmitKeeps(m, record, false);
      OpenFrame(m);
      if Open(m).current.Some? {
        OpenSpec(m);
        AddFrame(Open(m), record);
      }
    }
  }

  lemma PopFrame(s: Sender, w: nat, expired: bool)
    requires w < |s.workers|
    ensures var t := Pop(s, w, expired);
            && t.maxRetries == s.maxRetries && t.started == s.started && t.stopping == s.stopping
            && t.acknowledged == s.acknowledged && t.dropped == s.dropped
  {
    hide BatchAt;
  }

  lemma SealFrame(s: Sender)
    ensures SameFrame(s, Seal(s))
  {
  }

  /** A step of one worker, or of none, leaves the others where they are. */
  lemma OtherWorkers(s: Sender, a: Action, w: nat)
    requires Inv(s) && Possible(s, a) && w < |s.workers| && !a.Start? && !a.EndStop? && !Own(a, w)
    ensures w < |Next(s, a).workers| && Next(s, a).workers[w] == s.workers[w]
  {
    hide Inv, Pop, Submit, Seal, Pool.Valid, Pool.Released, BatchAt, Queue;
    match a {
      case PopReady(v, late) => PopTakesOldest(s, v, late);
      case SubmitRecord(record, lateOpen) =>
        SubmitKeeps(s, record, lateOpen);
        SubmitFrame(s, record, lateOpen);
      case Flush => SealFrame(s);
      case BeginStop => SealFrame(s.(stopping := true));
      case _ =>
    }
  }

  lemma Settings(s: Sender, a: Action)
    requires Inv(s) && Possible(s, a) && !a.Start?
    ensures Next(s, a).maxRetries == s.maxRetries
  {
    hide Inv, Pop, Submit, Seal, Pool.Valid, Pool.Released, BatchAt, Queue, ReleaseAll;
    match a {
      case PopReady(v, late) => PopFrame(s, v, late);
      case SubmitRecord(record, lateOpen) =>
        SubmitKeeps(s, record, lateOpen);
        SubmitFrame(s, record, lateOpen);
      case Flush => SealFrame(s);
      case BeginStop => SealFrame(s.(stopping := true));
      case _ =>
    }
  }

  /** What a worker's own step does to it. */
  lemma OwnStep(s: Sender, a: Action, w: nat)
    requires Inv(s) && Possible(s, a) && w < |s.workers|
    requires Own(a, w)
    ensures w < |Next(s, a).workers|
    ensures var p, p' := s.workers[w], Next(s, a).workers[w];
            match a
            case PopReady(_, late) =>
              if s.ready != [] || (late && s.current.Some?) then p' == Uploading(Queue(s)[0], 0)
              else p' == if s.stopping && Queue(s) == [] then Exited else Idle
            case Fail(_) =>
              p' == if p.attempt < s.maxRetries then Uploading(p.batch, p.attempt + 1) else Exhausted(p.batch)
            case Succeed(_) => p' == Resolved(p.batch)
            case GiveUp(_) => p' == Resolved(p.batch)
            case _ => p' == Idle
  {
    hide Inv, Pop, Pool.Valid, Pool.Released, BatchAt, Queue;
    match a {
      case PopReady(_, late) =>
        PopTakesOldest(s, w, late);
        QueueOf(s);
      case _ =>
    }
  }

  lemma QueueOf(s: Sender)
    ensures s.ready != [] || s.current.Some? ==> Queue(s) != []
  {
  }

  /** A sender starts anew: with the configured number of retries, nothing booked and all workers idle, if the pool is
    * large enough for two batches more than there are workers; else nothing changes. */
  lemma StartMeans(s: Sender, poolBytes: nat, size: nat, concurrency: nat, retries: nat)
    ensures var t := Started(s, poolBytes, size, concurrency, retries);
            var bytes, n := DefaultOr(size, DEFAULT_BATCH_BYTES), WorkerCount(concurrency);
            var batches := DefaultOr(poolBytes, DEFAULT_POOL_BYTES) / bytes;
            && 1 <= n <= MAX_CONCURRENCY
            && (if n + 2 <= batches < U32 then
                  && t.started && !t.stopping && |t.workers| == n && |t.pool.batches| == batches
                     && t.batchBytes == bytes
                  && (forall w :: 0 <= w < n ==> t.workers[w].Idle?)
                  && t.maxRetries == DefaultOr(retries, DEFAULT_MAX_RETRIES) && Queue(t) == []
                  && t.accepted == t.acknowledged == t.dropped == multiset{}
                else t == s)
  {
  }

  lemma StartStep(s: Sender, a: Action)
    requires Inv(s) && Possible(s, a) && a.Start?
    ensures Next(s, a) == s || forall w :: 0 <= w < |Next(s, a).workers| ==> Next(s, a).workers[w].Idle?
  {
    hide Inv, Started;
    StartMeans(s, a.poolBytes, a.size, a.concurrency, a.retries);
  }

  lemma StopStep(s: Sender, a: Action)
    requires Inv(s) && Possible(s, a) && a.EndStop?
    ensures Next(s, a).workers == []
  {
    hide Inv, Pool.Valid, Pool.Released, ReleaseAll;
  }

  lemma OrderlyAttempts(s: Sender, w: nat)
    requires Inv(s) && w < |s.workers| && s.workers[w].Uploading?
    ensures s.workers[w].attempt <= s.maxRetries
  {
    hide Owned, Filled, Counted;
  }

  lemma OwnTally(s: Sender, a: Action, w: nat, actions: seq<Action>, i: nat)
    requires Inv(s) && Possible(s, a) && w < |s.workers| && Own(a, w) && 0 < i <= |actions| && actions[i - 1] == a
    requires Tallied(s.workers[w], Failures(actions, w, i - 1), s.maxRetries)
    ensures w < |Next(s, a).workers| && Tallied(Next(s, a).workers[w], Failures(actions, w, i), s.maxRetries)
  {
    hide Inv, Next;
    OwnStep(s, a, w);
    if s.workers[w].Uploading? {
      OrderlyAttempts(s, w);
    }
  }

  /** Whoever is at a batch, at any time of any run: its attempt number is the number of failed attempts at that batch;
    * and a batch is given up only after the first attempt and all retries have failed. */
  lemma {:induction false} AttemptsCount(states: seq<Sender>, actions: seq<Action>, i: nat, w: nat)
    requires IsRun(states, actions) && i < |states| && w < |states[i].workers|
    ensures Tallied(states[i].workers[w], Failures(actions, w, i), states[i].maxRetries)
  {
    hide Inv, Next, Possible, Own, Tallied;
    if i == 0 {
      assert false;
    } else {
      InEveryState(states, actions, i - 1);
      var s, a := states[i - 1], actions[i - 1];
      assert Step(s, a, states[i]);
      if a.Start? {
        StartStep(s, a);
        NotOwn(a, w);
        OtherTally(actions, w, i);
        if states[i] == s {
          AttemptsCount(states, actions, i - 1, w);
        } else {
          IdleTallied(states[i].workers[w], Failures(actions, w, i), states[i].maxRetries);
        }
      } else if a.EndStop? {
        StopStep(s, a);
      } else {
        Settings(s, a);
        SameCount(s, a);
        AttemptsCount(states, actions, i - 1, w);
        if Own(a, w) {
          OwnTally(s, a, w, actions, i);
        } else {
          OtherWorkers(s, a, w);
          OtherTally(actions, w, i);
        }
      }
    }
  }

  lemma IdleTallied(p: Phase, failures: nat, maxRetries: nat)
    requires p.Idle?
    ensures Tallied(p, failures, maxRetries)
  {
  }

  lemma NotOwn(a: Action, w: nat)
    requires a.Start?
    ensures !Own(a, w)
  {
  }

  lemma SameCount(s: Sender, a: Action)
    requires Inv(s) && Possible(s, a) && !a.Start? && !a.EndStop?
    ensures |Next(s, a).workers| == |s.workers|
  {
    hide Inv, Pop, Submit, Seal, Pool.Valid, Pool.Released, BatchAt, Queue;
    match a {
      case PopReady(v, late) => PopTakesOldest(s, v, late);
      case SubmitRecord(record, lateOpen) =>
        SubmitKeeps(s, record, lateOpen);
        SubmitFrame(s, record, lateOpen);
      case Flush => SealFrame(s);
      case BeginStop => SealFrame(s.(stopping := true));
      case _ =>
    }
  }

  /** The row of it that matters to the agent's loss counter: a batch that is dropped was tried `maxRetries` + 1
    * times. */
  lemma DroppedAfterAll(states: seq<Sender>, actions: seq<Action>, i: nat)
    requires IsRun(states, actions) && i < |actions| && actions[i].GiveUp?
    ensures Failures(actions, actions[i].w, i) == states[i].maxRetries + 1
  {
    hide Inv, Next;
    assert Step(states[i], actions[i], states[i + 1]);
    AttemptsCount(states, actions, i, actions[i].w);
  }

  lemma OtherTally(actions: seq<Action>, w: nat, i: nat)
    requires 0 < i <= |actions| && !Own(actions[i - 1], w)
    ensures Failures(actions, w, i) == Failures(actions, w, i - 1)
  {
  }

  /** Flush and stop move the open batch to the ready ones, so that a worker will take it. */
  lemma FlushMeans(s: Sender)
    requires Inv(s)
    ensures var t := FlushStarted(s);
            if s.started && !s.stopping then t.ready == Queue(s) && t.current.None? && t.workers == s.workers
            else t == s
    ensures var t := StopStarted(s);
            if s.started then t.stopping && t.ready == Queue(s) && t.current.None? && t.workers == s.workers else t == s
  {
    hide Core;
    Sealed(s);
    SealFrame(s);
    SealFrame(s.(stopping := true));
    SealStopping(s);
  }

  lemma SealStopping(s: Sender)
    ensures Seal(s.(stopping := true)) == Seal(s).(stopping := true)
  {
  }

  // The books.

  /** What a run has taken in, acknowledged and dropped, read off its steps: each record that was submitted and taken,
    * each batch whose upload got an ok reply, and each batch that was given up. A new start begins new books. */
  ghost function Taken(states: seq<Sender>, actions: seq<Action>, i: nat): multiset<bytes>
    requires i <= |actions| < |states|
  {
    if i == 0 then multiset{}
    else
      var s, before := states[i - 1], Taken(states, actions, i - 1);
      match actions[i - 1]
      case Start(_, _, _, _) => if states[i] == s then before else multiset{}
      case SubmitRecord(record, late) =>
        if Welcome(s, record) && (Fits(s, record, late) || s.pool.freeStack != []) then before + multiset{record}
        else before
      case _ => before
  }

  ghost function Confirmed(states: seq<Sender>, actions: seq<Action>, i: nat): multiset<bytes>
    requires i <= |actions| < |states|
  {
    if i == 0 then multiset{}
    else
      var s, before := states[i - 1], Confirmed(states, actions, i - 1);
      match actions[i - 1]
      case Start(_, _, _, _) => if states[i] == s then before else multiset{}
      case Succeed(w) => before + HeldAt(s, w)
      case _ => before
  }

  ghost function Abandoned(states: seq<Sender>, actions: seq<Action>, i: nat): multiset<bytes>
    requires i <= |actions| < |states|
  {
    if i == 0 then multiset{}
    else
      var s, before := states[i - 1], Abandoned(states, actions, i - 1);
      match actions[i - 1]
      case Start(_, _, _, _) => if states[i] == s then before else multiset{}
      case GiveUp(w) => before + HeldAt(s, w)
      case _ => before
  }

  /** The records of the batch that a worker is at. */
  function HeldAt(s: Sender, w: nat): multiset<bytes>
  {
    if w < |s.workers| && (s.workers[w].Uploading? || s.workers[w].Exhausted?) then
      multiset(BatchAt(s, s.workers[w].batch).records)
    else multiset{}
  }

  lemma BooksStep(s: Sender, a: Action)
    requires Inv(s) && Possible(s, a) && !a.Start?
    ensures Next(s, a).accepted
            == s.accepted + if a.SubmitRecord? && Welcome(s, a.record)
            && (Fits(s, a.record, a.lateOpen) || s.pool.freeStack != [])
                            then multiset{a.record} else multiset{}
    ensures Next(s, a).acknowledged == s.acknowledged + if a.Succeed? then HeldAt(s, a.w) else multiset{}
    ensures Next(s, a).dropped == s.dropped + if a.GiveUp? then HeldAt(s, a.w) else multiset{}
  {
    hide Inv, Pop, Submit, Seal, Pool.Valid, Pool.Released, BatchAt, Queue, ReleaseAll, Fits, Welcome;
    NextKeeps(s, a);
    match a {
      case PopReady(v, late) => PopFrame(s, v, late);
      case SubmitRecord(record, lateOpen) =>
        SubmitKeeps(s, record, lateOpen);
        SubmitFrame(s, record, lateOpen);
        SubmitRefuses(s, record, lateOpen);
      case Flush => SealFrame(s);
      case BeginStop => SealFrame(s.(stopping := true));
      case _ =>
    }
  }

  /** In every state of every run, the records that the sender counts as accepted, acknowledged and dropped are exactly
    * those that the run's own steps took in, got confirmed and gave up. */
  lemma {:induction false} BooksAreTrue(states: seq<Sender>, actions: seq<Action>, i: nat)
    requires IsRun(states, actions) && i < |states|
    ensures states[i].accepted == Taken(states, actions, i)
    ensures states[i].acknowledged == Confirmed(states, actions, i)
    ensures states[i].dropped == Abandoned(states, actions, i)
  {
    hide Inv, Next, Possible, HeldAt, Fits, Welcome;
    if i > 0 {
      BooksAreTrue(states, actions, i - 1);
      InEveryState(states, actions, i - 1);
      var s, a := states[i - 1], actions[i - 1];
      assert Step(s, a, states[i]);
      if a.Start? {
        StartBooks(s, a);
      } else {
        BooksStep(s, a);
      }
    }
  }

  lemma StartBooks(s: Sender, a: Action)
    requires Inv(s) && Possible(s, a) && a.Start?
    ensures var t := Next(s, a); t == s || t.accepted == t.acknowledged == t.dropped == multiset{}
  {
    hide Inv, Started;
    StartMeans(s, a.poolBytes, a.size, a.concurrency, a.retries);
  }

  // Stop ends.

  /** Steps that a worker can still have to take. */
  function Effort(p: Phase, maxRetries: nat): nat
  {
    match p
    case Exited => 0
    case Idle => 1
    case Resolved(_) => 2
    case Exhausted(_) => 3
    case Uploading(_, attempt) => 4 + (if attempt <= maxRetries then maxRetries - attempt else 0)
  }

  function Efforts(workers: seq<Phase>, maxRetries: nat): nat
  {
    if workers == [] then 0 else Effort(workers[0], maxRetries) + Efforts(workers[1..], maxRetries)
  }

  function Remaining(s: Sender): nat
  {
    Efforts(s.workers, s.maxRetries) + |Queue(s)| * (s.maxRetries + 4)
  }

  lemma {:induction false} EffortExchange(workers: seq<Phase>, w: nat, p: Phase, maxRetries: nat)
    requires w < |workers|
    ensures Efforts(workers[w := p], maxRetries) + Effort(workers[w], maxRetries)
              == Efforts(workers, maxRetries) + Effort(p, maxRetries)
    decreases w
  {
    hide Effort;
    assert workers[w := p][0] == if w == 0 then p else workers[0];
    if w == 0 {
      assert workers[w := p][1..] == workers[1..];
    } else {
      assert workers[w := p][1..] == workers[1..][w - 1 := p];
      EffortExchange(workers[1..], w - 1, p, maxRetries);
    }
  }

  function Worker(a: Action): bool
  {
    a.PopReady? || a.Fail? || a.Succeed? || a.GiveUp? || a.Return?
  }

  /** While the sender stops, every step of a worker brings it nearer to the end, and no other step takes it back. */
  lemma StopMoves(s: Sender, a: Action)
    requires Inv(s) && Possible(s, a) && s.started && s.stopping && !a.Start? && !a.EndStop?
    ensures Next(s, a).started && Next(s, a).stopping
    ensures Worker(a) ==> Remaining(Next(s, a)) < Remaining(s)
    ensures !Worker(a) ==> Remaining(Next(s, a)) == Remaining(s)
  {
    hide Inv, Next, Efforts, Effort, Queue;
    var t := Next(s, a);
    Settings(s, a);
    StopFrame(s, a);
    if Worker(a) {
      var w := a.w;
      OwnStep(s, a, w);
      SameCount(s, a);
      forall v | 0 <= v < |s.workers| && v != w
        ensures t.workers[v] == s.workers[v]
      {
        OtherWorkers(s, a, v);
      }
      assert t.workers == s.workers[w := t.workers[w]];
      EffortExchange(s.workers, w, t.workers[w], s.maxRetries);
      OwnEffort(s, a);
    } else {
      SameCount(s, a);
      forall v | 0 <= v < |s.workers|
        ensures t.workers[v] == s.workers[v]
      {
        OtherWorkers(s, a, v);
      }
      assert t.workers == s.workers;
    }
  }

  lemma StopFrame(s: Sender, a: Action)
    requires Inv(s) && Possible(s, a) && s.started && s.stopping && !a.Start? && !a.EndStop?
    ensures Next(s, a).started && Next(s, a).stopping
    ensures !a.PopReady? ==> Queue(Next(s, a)) == Queue(s)
  {
    hide Inv, Pop, Submit, Seal, Pool.Valid, Pool.Released, BatchAt, Queue;
    StoppingOpen(s);
    match a {
      case PopReady(v, late) => PopFrame(s, v, late);
      case SubmitRecord(record, lateOpen) =>
        SubmitKeeps(s, record, lateOpen);
        StoppingRefuses(s, record, lateOpen);
      case BeginStop => SealNothing(s.(stopping := true));
      case Fail(_) => SameLists(s, Next(s, a));
      case Succeed(_) => SameLists(s, Next(s, a));
      case GiveUp(_) => SameLists(s, Next(s, a));
      case Return(_) => SameLists(s, Next(s, a));
      case _ =>
    }
  }

  lemma StoppingRefuses(s: Sender, record: bytes, late: bool)
    requires s.stopping && s.pool.Valid() && (s.current.Some? ==> s.current.value < |s.pool.batches|)
    ensures Submit(s, record, late).0 == s
  {
    hide Pool.Valid;
  }

  lemma SealNothing(s: Sender)
    requires s.current.None?
    ensures Seal(s) == s
  {
  }

  /** The measure of a worker's own step, with what it takes from the queue. */
  lemma OwnEffort(s: Sender, a: Action)
    requires Inv(s) && Possible(s, a) && Worker(a) && s.started && s.stopping && a.w < |Next(s, a).workers|
    ensures Effort(Next(s, a).workers[a.w], s.maxRetries) + |Queue(Next(s, a))| * (s.maxRetries + 4)
          < Effort(s.workers[a.w], s.maxRetries) + |Queue(s)| * (s.maxRetries + 4)
  {
    hide Inv, Next, Queue;
    OwnStep(s, a, a.w);
    StopFrame(s, a);
    StoppingOpen(s);
    if a.PopReady? {
      PopShrinks(s, a);
    } else if s.workers[a.w].Uploading? {
      OrderlyAttempts(s, a.w);
    }
  }

  lemma PopShrinks(s: Sender, a: Action)
    requires Inv(s) && Possible(s, a) && a.PopReady? && s.stopping && s.current.None? && a.w < |Next(s, a).workers|
    ensures if Next(s, a).workers[a.w].Uploading? then
              |Queue(s)| == |Queue(Next(s, a))| + 1 && Next(s, a).workers[a.w].attempt == 0
            else Next(s, a).workers[a.w].Exited? && Queue(Next(s, a)) == Queue(s)
    ensures Next(s, a).workers[a.w].Uploading? ==>
              |Queue(s)| * (s.maxRetries + 4) == |Queue(Next(s, a))| * (s.maxRetries + 4) + (s.maxRetries + 4)
  {
    hide Inv, Pop;
    PopTakesOldest(s, a.w, a.late);
  }

  /** Nor does any worker get stuck: as long as one has not left, it has a step to take. */
  lemma SomeoneMoves(s: Sender) returns (a: Action)
    requires Inv(s) && s.started && s.stopping && !Joined(s)
    ensures Possible(s, a) && Worker(a)
  {
    hide Inv;
    var w :| 0 <= w < |s.workers| && !s.workers[w].Exited?;
    match s.workers[w] {
      case Idle => a := PopReady(w, false);
      case Uploading(_, _) => a := Fail(w);
      case Exhausted(_) => a := GiveUp(w);
      case Resolved(_) => a := Return(w);
      case Exited => assert false;
    }
  }

  /** The workers' steps between `i` and `j`. */
  function WorkerSteps(actions: seq<Action>, i: nat, j: nat): nat
    requires i <= j <= |actions|
    decreases j
  {
    if i == j then 0 else WorkerSteps(actions, i, j - 1) + if Worker(actions[j - 1]) then 1 else 0
  }

  /** Stop ends: from any stopping state on the workers have only so many steps left among them, whatever submissions or
    * flushes come in between; and until they all have left one of them has a step to take (`SomeoneMoves`). */
  lemma {:induction false} StopEnds(states: seq<Sender>, actions: seq<Action>, i: nat, j: nat)
    requires IsRun(states, actions) && i <= j < |states| && states[i].started && states[i].stopping
    requires forall k :: i <= k < j ==> !actions[k].Start? && !actions[k].EndStop?
    ensures states[j].started && states[j].stopping
    ensures WorkerSteps(actions, i, j) + Remaining(states[j]) <= Remaining(states[i])
    decreases j
  {
    hide Inv, Next, Possible, Remaining, Worker;
    if i < j {
      StopEnds(states, actions, i, j - 1);
      InEveryState(states, actions, j - 1);
      assert Step(states[j - 1], actions[j - 1], states[j]);
      StopMoves(states[j - 1], actions[j - 1]);
    }
  }
}
