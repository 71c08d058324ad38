/** The collector from upload to storage: uploads, the task queue, insert workers, the store, the counters. */
module Collector {
  import opened Chunking
  import opened BoundedQueue
  import opened MongoSink
  import opened Multisets
  import Bytes

  /** One accepted upload: its documents and their sizes. */
  datatype Task = Task(docs: seq<Doc>, sizes: seq<nat>)

  const ATTEMPTS: nat := 4

  /** A worker sends the chunk that starts at `start`; the server has taken its documents up to `at`, and
    * `errors` is the list of write errors that its reply will carry. */
  datatype Phase =
    | Idle
    | Sending(task: Task, attempt: nat, start: nat, at: nat, errors: seq<WriteError>)
    | Finished(task: Task, ok: bool)
    | Exited

  /** `between` are the record counts of uploads whose task is queued but not yet counted as accepted;
    * `loose` are documents of bulk inserts whose connection broke: the server may still take them. */
  datatype State = State(
    limits: Limits, serving: bool, queue: Queue<Task>, between: seq<nat>, workers: seq<Phase>,
    store: seq<Doc>, loose: set<Doc>,
    accepted: nat, rejected: nat, persisted: nat, dbFailed: nat,
    submitted: multiset<Task>, stored: multiset<Task>, failed: multiset<Task>, known: set<Doc>)

  /** `Elsewhere` is what another collector that writes to the same collection got stored. */
  datatype Step =
    | Upload(task: Task)
    | CountAccepted(i: nat)
    | TakeTask(w: nat)
    | ServeOne(w: nat, faulty: bool)
    | Answer(w: nat, concernMet: bool, listsNone: bool)
    | Break(w: nat)
    | Stray(d: Doc)
    | Elsewhere(d: Doc)
    | CountDone(w: nat)
    | ServerDown
    | CloseQueue

  function TaskOk(t: Task): bool
  {
    |t.sizes| == |t.docs|
  }

  /** Where the chunk ends that a worker is sending. */
  function EndOf(s: State, p: Phase): nat
    requires p.Sending? && TaskOk(p.task) && p.start < |p.task.docs|
  {
    ChunkEnd(p.task.sizes, s.limits, p.start)
  }

  /** A worker's phase makes sense. */
  predicate PhaseOk(s: State, p: Phase)
  {
    match p
    case Sending(t, attempt, start, at, _) =>
      TaskOk(t) && attempt < ATTEMPTS && start < |t.docs| && start <= at <= EndOf(s, p)
    case _ => true
  }

  predicate Possible(s: State, step: Step)
  {
    match step
    case Upload(t) => s.serving && TaskOk(t)
    case CountAccepted(i) => i < |s.between|
    case TakeTask(w) => w < |s.workers| && s.workers[w].Idle? && Ready(s.queue, Op<Task>.Pop)
    case ServeOne(w, _) =>
      w < |s.workers| && s.workers[w].Sending? && PhaseOk(s, s.workers[w]) && s.workers[w].at < EndOf(s, s.workers[w])
    case Answer(w, _, _) => w < |s.workers| && s.workers[w].Sending? && PhaseOk(s, s.workers[w])
    && s.workers[w].at == EndOf(s, s.workers[w])
    case Break(w) => w < |s.workers| && s.workers[w].Sending? && PhaseOk(s, s.workers[w])
    case Stray(d) => d in s.loose
    case Elsewhere(_) => true
    case CountDone(w) => w < |s.workers| && s.workers[w].Finished?
    case ServerDown => s.between == []
    case CloseQueue => !s.serving
  }

  function DocSet(t: Task): set<Doc>
  {
    set d | d in t.docs
  }

  function Begin(t: Task): Phase
  {
    if t.docs == [] then Finished(t, true) else Sending(t, 0, 0, 0, [])
  }

  /** After a failed attempt the whole task is sent again, up to four times. */
  function Again(t: Task, attempt: nat): Phase
  {
    if attempt + 1 < ATTEMPTS then Sending(t, attempt + 1, 0, 0, []) else Finished(t, false)
  }

  /** What one document adds to the list of errors. */
  function ErrorOf(store: seq<Doc>, d: Doc, index: nat, faulty: bool): seq<WriteError>
  {
    if faulty || Has(store, d.key) then [WriteError(index, !faulty)] else []
  }

  /** What the worker does about the server's reply: `ok || duplicate_only(reply)`. */
  function OnReply(p: Phase, concernMet: bool, listsNone: bool): Phase
    requires p.Sending?
  {
    if !ChunkAccepted(ReplyOf(p.errors, concernMet, listsNone)) then Again(p.task, p.attempt)
    else if p.at == |p.task.docs| then Finished(p.task, true)
    else Sending(p.task, p.attempt, p.at, p.at, [])
  }

  function Put(store: seq<Doc>, d: Doc): seq<Doc>
  {
    if Has(store, d.key) then store else store + [d]
  }

  function SetWorker(s: State, w: nat, p: Phase): State
    requires w < |s.workers|
  {
    s.(workers := s.workers[w := p])
  }

  function Next(s: State, step: Step): State
    requires Possible(s, step)
  {
    match step
    case Upload(t) =>
      var (queue, seen) := Apply(s.queue, TryPush(t));
      if seen == Refused then s.(rejected := s.rejected + |t.docs|)
      else s.(queue := queue, between := s.between + [|t.docs|], submitted := s.submitted + multiset{t},
              known := s.known + DocSet(t))
    case CountAccepted(i) => s.(accepted := s.accepted + s.between[i], between := s.between[..i] + s.between[i + 1..])
    case TakeTask(w) =>
      var (queue, seen) := Apply(s.queue, Op<Task>.Pop);
      SetWorker(s.(queue := queue), w, if seen.Got? then Begin(seen.item) else Exited)
    case ServeOne(w, faulty) =>
      var p := s.workers[w];
      SetWorker(s.(store := if faulty then s.store else Put(s.store, p.task.docs[p.at])), w,
                p.(at := p.at + 1, errors := p.errors + ErrorOf(s.store, p.task.docs[p.at], p.at - p.start, faulty)))
    case Answer(w, concernMet, listsNone) => SetWorker(s, w, OnReply(s.workers[w], concernMet, listsNone))
    case Break(w) =>
      var p := s.workers[w];
      SetWorker(s.(loose := s.loose + DocSet(p.task)), w, Again(p.task, p.attempt))
    case Stray(d) => s.(store := Put(s.store, d))
    case Elsewhere(d) => s.(store := Put(s.store, d), known := s.known + {d})
    case CountDone(w) =>
      var p := s.workers[w];
      SetWorker(s.(persisted := s.persisted + (if p.ok then |p.task.docs| else 0),
                   dbFailed := s.dbFailed + (if p.ok then 0 else |p.task.docs|),
                   stored := s.stored + (if p.ok then multiset{p.task} else multiset{}),
                   failed := s.failed + (if p.ok then multiset{} else multiset{p.task})), w, Idle)
    case ServerDown => s.(serving := false)
    case CloseQueue => s.(queue := Apply(s.queue, Op<Task>.Close).0)
  }

  // Sums.

  function Total(counts: seq<nat>): nat
  {
    if counts == [] then 0 else counts[0] + Total(counts[1..])
  }

  function QueuedRecords(items: seq<Task>): nat
  {
    if items == [] then 0 else |items[0].docs| + QueuedRecords(items[1..])
  }

  function HeldTask(p: Phase): seq<Task>
  {
    match p
    case Sending(t, _, _, _, _) => [t]
    case Finished(t, _) => [t]
    case _ => []
  }

  function Load(p: Phase): nat
  {
    match p
    case Sending(t, _, _, _, _) => |t.docs|
    case Finished(t, _) => |t.docs|
    case _ => 0
  }

  function HeldRecords(workers: seq<Phase>): nat
  {
    if workers == [] then 0 else Load(workers[0]) + HeldRecords(workers[1..])
  }

  function HeldTasks(workers: seq<Phase>): multiset<Task>
  {
    if workers == [] then multiset{} else multiset(HeldTask(workers[0])) + HeldTasks(workers[1..])
  }

  // The invariant.

  /** Every counted or queued record is in one place. */
  predicate Conserved(s: State)
  {
    s.accepted + Total(s.between) == s.persisted + s.dbFailed + QueuedRecords(s.queue.items) + HeldRecords(s.workers)
  }

  /** Every task that was taken in is in one place, and is completed once. */
  predicate TasksConserved(s: State)
  {
    s.submitted == s.stored + s.failed + multiset(s.queue.items) + HeldTasks(s.workers)
  }

  /** What a worker has behind it is in the store. */
  predicate Behind(s: State, p: Phase)
  {
    match p
    case Sending(t, _, start, at, errors) =>
      PhaseOk(s, p) && Stored(s.store, t.docs[..start]) && (AllDuplicate(errors) ==> Stored(s.store, t.docs[..at]))
      && DocSet(t) <= s.known
    case Finished(t, ok) => (ok ==> Stored(s.store, t.docs)) && DocSet(t) <= s.known
    case _ => true
  }

  predicate StoreOk(s: State)
  {
    && UniqueKeys(s.store) && s.loose <= s.known && (forall d :: d in s.store ==> d in s.known)
    && (forall i :: 0 <= i < |s.workers| ==> Behind(s, s.workers[i]))
    && (forall t :: t in s.stored ==> Stored(s.store, t.docs) && DocSet(t) <= s.known)
    && (forall i :: 0 <= i < |s.queue.items| ==> TaskOk(s.queue.items[i]) && DocSet(s.queue.items[i]) <= s.known)
  }

  predicate Orderly(s: State)
  {
    && 0 < s.queue.capacity && |s.queue.items| <= s.queue.capacity
    && (!s.serving ==> s.between == []) && (s.queue.closed ==> !s.serving)
    && (forall i :: 0 <= i < |s.workers| && s.workers[i].Exited? ==> s.queue.closed && s.queue.items == [])
  }

  predicate Inv(s: State)
  {
    Conserved(s) && TasksConserved(s) && StoreOk(s) && Orderly(s)
  }

  // Small facts.

  lemma {:induction false} HeldExchange(workers: seq<Phase>, w: nat, p: Phase)
    requires w < |workers|
    ensures HeldRecords(workers[w := p]) + Load(workers[w]) == HeldRecords(workers) + Load(p)
    decreases w
  {
    hide Load;
    assert workers[w := p][0] == if w == 0 then p else workers[0];
    if w == 0 {
      assert workers[w := p][1..] == workers[1..];
    } else {
      assert workers[w := p][1..] == workers[1..][w - 1 := p];
      HeldExchange(workers[1..], w - 1, p);
    }
  }

  lemma {:induction false} QueuedAppend(items: seq<Task>, t: Task)
    ensures QueuedRecords(items + [t]) == QueuedRecords(items) + |t.docs|
  {
    if items == [] {
      assert (items + [t])[1..] == [];
    } else {
      assert (items + [t])[1..] == items[1..] + [t];
      QueuedAppend(items[1..], t);
    }
  }

  lemma {:induction false} TotalAppend(counts: seq<nat>, n: nat)
    ensures Total(counts + [n]) == Total(counts) + n
  {
    if counts == [] {
      assert (counts + [n])[1..] == [];
    } else {
      assert (counts + [n])[1..] == counts[1..] + [n];
      TotalAppend(counts[1..], n);
    }
  }

  lemma {:induction false} TotalRemove(counts: seq<nat>, i: nat)
    requires i < |counts|
    ensures Total(counts[..i] + counts[i + 1..]) + counts[i] == Total(counts)
  {
    var less := counts[..i] + counts[i + 1..];
    if i == 0 {
      assert less == counts[1..];
    } else {
      assert less[1..] == counts[1..][..i - 1] + counts[1..][i..];
      TotalRemove(counts[1..], i - 1);
    }
  }

  // The counters.

  lemma NextConserves(s: State, step: Step)
    requires Conserved(s) && Possible(s, step)
    ensures Conserved(Next(s, step))
  {
    hide PhaseOk, Put, DocSet, EndOf, HeldRecords, Total, Possible, Next;
    match step {
      case Upload(t) => UploadConserves(s, t);
      case CountAccepted(i) => CountConserves(s, i);
      case TakeTask(w) => TakeConserves(s, w);
      case ServeOne(w, _) => WorkerConserves(s, step, w);
      case Answer(w, _, _) => WorkerConserves(s, step, w);
      case Break(w) => WorkerConserves(s, step, w);
      case CountDone(w) => WorkerConserves(s, step, w);
      case Stray(_) => OthersConserve(s, step);
      case Elsewhere(_) => OthersConserve(s, step);
      case ServerDown => OthersConserve(s, step);
      case CloseQueue => OthersConserve(s, step);
    }
  }

  lemma UploadConserves(s: State, t: Task)
    requires Conserved(s) && Possible(s, Upload(t))
    ensures Conserved(Next(s, Upload(t)))
  {
    hide HeldRecords, Total, QueuedRecords, DocSet;
    QueuedAppend(s.queue.items, t);
    TotalAppend(s.between, |t.docs|);
  }

  lemma CountConserves(s: State, i: nat)
    requires Conserved(s) && Possible(s, CountAccepted(i))
    ensures Conserved(Next(s, CountAccepted(i)))
  {
    hide HeldRecords, Total, QueuedRecords;
    TotalRemove(s.between, i);
  }

  lemma TakeConserves(s: State, w: nat)
    requires Conserved(s) && Possible(s, TakeTask(w))
    ensures Conserved(Next(s, TakeTask(w)))
  {
    hide HeldRecords, Total;
    HeldExchange(s.workers, w, Next(s, TakeTask(w)).workers[w]);
  }

  lemma WorkerConserves(s: State, step: Step, w: nat)
    requires Conserved(s) && Possible(s, step)
    requires (step.Answer? && step.w == w) || step == Break(w) || step == CountDone(w)
             || (step.ServeOne? && step.w == w)
    ensures Conserved(Next(s, step))
  {
    hide HeldRecords, Total, QueuedRecords, PhaseOk, DocSet, Put, EndOf;
    HeldExchange(s.workers, w, Next(s, step).workers[w]);
  }

  lemma OthersConserve(s: State, step: Step)
    requires Conserved(s) && Possible(s, step)
             && (step.Stray? || step.Elsewhere? || step.ServerDown? || step.CloseQueue?)
    ensures Conserved(Next(s, step))
  {
    hide HeldRecords, Total, QueuedRecords;
  }

  // The tasks.

  lemma {:induction false} TaskExchange(workers: seq<Phase>, w: nat, p: Phase)
    requires w < |workers|
    ensures HeldTasks(workers[w := p]) + multiset(HeldTask(workers[w])) == HeldTasks(workers) + multiset(HeldTask(p))
    decreases w
  {
    hide HeldTask;
    assert workers[w := p][0] == if w == 0 then p else workers[0];
    if w == 0 {
      assert workers[w := p][1..] == workers[1..];
    } else {
      assert workers[w := p][1..] == workers[1..][w - 1 := p];
      TaskExchange(workers[1..], w - 1, p);
      var head := multiset(HeldTask(workers[0]));
      var tail, tail' := HeldTasks(workers[1..]), HeldTasks(workers[1..][w - 1 := p]);
      var had, has := multiset(HeldTask(workers[w])), multiset(HeldTask(p));
      assert (head + tail') + had == head + (tail' + had);
      assert (head + tail) + has == head + (tail + has);
    }
  }

  /** A worker keeps its task, gets one, or lets it go. */
  lemma TaskMoves(workers: seq<Phase>, w: nat, p: Phase)
    requires w < |workers|
    ensures HeldTask(p) == HeldTask(workers[w]) ==> HeldTasks(workers[w := p]) == HeldTasks(workers)
    ensures HeldTask(workers[w]) == [] ==> HeldTasks(workers[w := p]) == HeldTasks(workers) + multiset(HeldTask(p))
    ensures HeldTask(p) == [] ==> HeldTasks(workers) == HeldTasks(workers[w := p]) + multiset(HeldTask(workers[w]))
  {
    hide HeldTasks, HeldTask;
    TaskExchange(workers, w, p);
    if HeldTask(p) == HeldTask(workers[w]) {
      Cancel(HeldTasks(workers[w := p]), HeldTasks(workers), multiset(HeldTask(p)));
    }
  }

  lemma NextKeepsTasks(s: State, step: Step)
    requires TasksConserved(s) && Possible(s, step)
    ensures TasksConserved(Next(s, step))
  {
    hide PhaseOk, Put, DocSet, EndOf, HeldTasks, Possible, Next;
    match step {
      case TakeTask(w) => TakeKeepsTasks(s, w);
      case ServeOne(w, _) => SameTasks(s, step, w);
      case Answer(w, _, _) => SameTasks(s, step, w);
      case Break(w) => SameTasks(s, step, w);
      case CountDone(w) => DoneKeepsTasks(s, w);
      case _ => OthersKeepTasks(s, step);
    }
  }

  lemma TakeKeepsTasks(s: State, w: nat)
    requires TasksConserved(s) && Possible(s, TakeTask(w))
    ensures TasksConserved(Next(s, TakeTask(w)))
  {
    hide HeldTasks;
    if s.queue.items != [] {
      TookKeepsTasks(s, w, s.queue.items[0], s.queue.items[1..]);
    } else {
      TaskMoves(s.workers, w, Exited);
    }
  }

  lemma TookKeepsTasks(s: State, w: nat, t: Task, rest: seq<Task>)
    requires TasksConserved(s) && Possible(s, TakeTask(w))
    requires s.queue.items != [] && t == s.queue.items[0] && rest == s.queue.items[1..]
    ensures TasksConserved(Next(s, TakeTask(w)))
  {
    hide HeldTasks, Next, HeldTask;
    TookTask(s, w, t, rest);
    assert HeldTask(s.workers[w]) == [] by { IdleHolds(s.workers[w]); }
    TaskMoves(s.workers, w, Next(s, TakeTask(w)).workers[w]);
    TaskTaken(s.stored + s.failed, t, rest, HeldTasks(s.workers));
  }

  lemma IdleHolds(p: Phase)
    requires p.Idle?
    ensures HeldTask(p) == []
  {
  }

  lemma TookTask(s: State, w: nat, t: Task, rest: seq<Task>)
    requires Possible(s, TakeTask(w)) && s.queue.items != [] && t == s.queue.items[0] && rest == s.queue.items[1..]
    ensures var n := Next(s, TakeTask(w));
            && s.queue.items == [t] + rest && n.queue.items == rest && n.submitted == s.submitted
               && n.stored == s.stored
            && n.failed == s.failed && |n.workers| == |s.workers| && n.workers == s.workers[w := n.workers[w]]
            && HeldTask(n.workers[w]) == [t]
  {
  }

  lemma TaskTaken(out: multiset<Task>, t: Task, rest: seq<Task>, held: multiset<Task>)
    ensures out + multiset([t] + rest) + held == out + multiset(rest) + (held + multiset([t]))
  {
  }

  lemma SameTasks(s: State, step: Step, w: nat)
    requires TasksConserved(s) && Possible(s, step)
    requires (step.Answer? && step.w == w) || step == Break(w) || (step.ServeOne? && step.w == w)
    ensures TasksConserved(Next(s, step))
  {
    hide HeldTasks, PhaseOk, DocSet, Put, EndOf, Next, Possible, HeldTask;
    KeptTask(s, step, w);
    TaskMoves(s.workers, w, Next(s, step).workers[w]);
  }

  lemma KeptTask(s: State, step: Step, w: nat)
    requires Possible(s, step) && ((step.Answer? && step.w == w) || step == Break(w) || (step.ServeOne? && step.w == w))
    ensures var n := Next(s, step);
            && n.queue == s.queue && n.submitted == s.submitted && n.stored == s.stored && n.failed == s.failed
            && w < |s.workers| == |n.workers| && n.workers == s.workers[w := n.workers[w]]
            && HeldTask(n.workers[w]) == HeldTask(s.workers[w])
  {
    hide PhaseOk, DocSet, Put, EndOf;
  }

  lemma DoneKeepsTasks(s: State, w: nat)
    requires TasksConserved(s) && Possible(s, CountDone(w))
    ensures TasksConserved(Next(s, CountDone(w)))
  {
    hide HeldTasks;
    TaskMoves(s.workers, w, Idle);
  }

  lemma OthersKeepTasks(s: State, step: Step)
    requires TasksConserved(s) && Possible(s, step)
    requires step.Upload? || step.CountAccepted? || step.Stray? || step.Elsewhere? || step.ServerDown?
             || step.CloseQueue?
    ensures TasksConserved(Next(s, step))
  {
    hide HeldTasks;
  }

  // The store.

  lemma PutGrows(store: seq<Doc>, d: Doc)
    ensures store <= Put(store, d) && Has(Put(store, d), d.key)
    ensures forall e :: e in Put(store, d) ==> e in store || e == d
    ensures UniqueKeys(store) ==> UniqueKeys(Put(store, d))
  {
    if !Has(store, d.key) {
      assert Put(store, d)[|store|] == d;
    }
  }

  /** A larger store with the same workers' progress keeps what was achieved. */
  lemma BehindGrows(s: State, t: State, p: Phase)
    requires Behind(s, p) && s.store <= t.store && s.known <= t.known && s.limits == t.limits
    ensures Behind(t, p)
  {
    hide Stored, PhaseOk, Has;
    match p {
      case Sending(task, attempt, start, at, errors) =>
        SamePhaseOk(s, t, p);
        SliceBounds(s, p);
        StoredGrows(s.store, t.store, task.docs[..start]);
        if AllDuplicate(errors) {
          StoredGrows(s.store, t.store, task.docs[..at]);
        }
      case Finished(task, ok) =>
        if ok {
          StoredGrows(s.store, t.store, task.docs);
        }
      case _ =>
    }
  }

  lemma SliceBounds(s: State, p: Phase)
    requires p.Sending? && PhaseOk(s, p)
    ensures p.start <= p.at <= |p.task.docs|
  {
  }

  lemma SamePhaseOk(s: State, t: State, p: Phase)
    requires PhaseOk(s, p) && s.limits == t.limits
    ensures PhaseOk(t, p)
  {
  }

  /** Growing the store and the set of known documents, without touching anything else, keeps it in order. */
  lemma StoreOkGrows(s: State, t: State)
    requires StoreOk(s) && t == s.(store := t.store, known := t.known, loose := t.loose)
    requires s.store <= t.store && s.known <= t.known && UniqueKeys(t.store)
    requires t.loose <= t.known && forall d :: d in t.store ==> d in t.known
    ensures StoreOk(t)
  {
    hide Behind, UniqueKeys, Stored, TaskOk;
    forall i | 0 <= i < |t.workers|
      ensures Behind(t, t.workers[i])
    {
      BehindGrows(s, t, t.workers[i]);
    }
    forall task | task in t.stored
      ensures Stored(t.store, task.docs) && DocSet(task) <= t.known
    {
      StoredGrows(s.store, t.store, task.docs);
    }
  }

  /** Only one worker's phase changes. */
  lemma StoreOkMove(s: State, w: nat, p: Phase)
    requires StoreOk(s) && w < |s.workers| && Behind(s, p)
    ensures StoreOk(SetWorker(s, w, p))
  {
    hide UniqueKeys, Stored, TaskOk, Behind, DocSet;
    var t := SetWorker(s, w, p);
    forall i | 0 <= i < |t.workers|
      ensures Behind(t, t.workers[i])
    {
      BehindGrows(s, t, if i == w then p else s.workers[i]);
    }
  }

  lemma AgainBehind(s: State, t: Task, attempt: nat)
    requires TaskOk(t) && DocSet(t) <= s.known && (attempt + 1 < ATTEMPTS ==> t.docs != [])
    ensures Behind(s, Again(t, attempt))
  {
    assert t.docs[..0] == [];
  }

  lemma ServeKeepsStore(s: State, w: nat, faulty: bool)
    requires StoreOk(s) && Possible(s, ServeOne(w, faulty))
    ensures StoreOk(Next(s, ServeOne(w, faulty)))
  {
    hide UniqueKeys, Stored, Put, Has, DocSet, StoreOk;
    var p := s.workers[w];
    WorkerBehind(s, w);
    SendingTask(s, p);
    var d := p.task.docs[p.at];
    TaskDoc(p.task, p.at);
    PutGrows(s.store, d);
    var t := s.(store := if faulty then s.store else Put(s.store, d));
    GrowByKnown(s, t);
    var more := ErrorOf(s.store, d, p.at - p.start, faulty);
    var p' := p.(at := p.at + 1, errors := p.errors + more);
    BehindGrows(s, t, p);
    ErrorTells(s.store, d, p.at - p.start, faulty);
    ServedBehind(t, p, d, more);
    StoreOkMove(t, w, p');
  }

  lemma WorkerBehind(s: State, w: nat)
    requires StoreOk(s) && w < |s.workers|
    ensures Behind(s, s.workers[w])
  {
  }

  lemma TaskDoc(t: Task, i: nat)
    requires i < |t.docs|
    ensures t.docs[i] in DocSet(t)
  {
  }

  lemma GrowByKnown(s: State, t: State)
    requires StoreOk(s) && t == s.(store := t.store) && s.store <= t.store
             && (UniqueKeys(s.store) ==> UniqueKeys(t.store))
    requires forall d :: d in t.store ==> d in s.store || d in s.known
    ensures StoreOk(t)
  {
    hide UniqueKeys, Behind, Stored;
    StoreOkGrows(s, t);
  }

  /** Unless the server refuses the document on its own, its key is stored afterwards. */
  lemma ErrorTells(store: seq<Doc>, d: Doc, index: nat, faulty: bool)
    ensures AllDuplicate(ErrorOf(store, d, index, faulty)) ==> !faulty
  {
    if faulty {
      assert !ErrorOf(store, d, index, faulty)[0].duplicate;
    }
  }

  lemma ServedBehind(s: State, p: Phase, d: Doc, more: seq<WriteError>)
    requires p.Sending? && Behind(s, p) && p.at < EndOf(s, p) && d == p.task.docs[p.at]
             && (AllDuplicate(more) ==> Has(s.store, d.key))
    ensures Behind(s, p.(at := p.at + 1, errors := p.errors + more))
  {
    hide Has, DocSet;
    var docs := p.task.docs;
    assert docs[..p.at + 1] == docs[..p.at] + [d];
    JoinedErrors(p.errors, more);
  }

  lemma JoinedErrors(first: seq<WriteError>, second: seq<WriteError>)
    ensures AllDuplicate(first + second) <==> AllDuplicate(first) && AllDuplicate(second)
  {
    if AllDuplicate(first + second) {
      assert forall i :: 0 <= i < |second| ==> (first + second)[|first| + i] == second[i];
      assert forall i :: 0 <= i < |first| ==> (first + second)[i] == first[i];
    }
  }

  lemma AnswerKeepsStore(s: State, w: nat, concernMet: bool, listsNone: bool)
    requires StoreOk(s) && Possible(s, Answer(w, concernMet, listsNone))
    ensures StoreOk(Next(s, Answer(w, concernMet, listsNone)))
  {
    hide UniqueKeys, Stored, TaskOk, DocSet, StoreOk, OnReply;
    var p := s.workers[w];
    WorkerBehind(s, w);
    AnswerBehind(s, p, concernMet, listsNone);
    StoreOkMove(s, w, OnReply(p, concernMet, listsNone));
  }

  /** If the worker takes the reply for success, every document of the chunk is stored. */
  lemma AnswerBehind(s: State, p: Phase, concernMet: bool, listsNone: bool)
    requires p.Sending? && Behind(s, p) && p.at == EndOf(s, p)
    ensures Behind(s, OnReply(p, concernMet, listsNone))
  {
    hide DocSet, Has, ChunkAccepted;
    AcceptedReply(p.errors, concernMet, listsNone);
    AgainBehind(s, p.task, p.attempt);
    assert p.task.docs[..|p.task.docs|] == p.task.docs;
  }

  lemma BreakKeepsStore(s: State, w: nat)
    requires StoreOk(s) && Possible(s, Break(w))
    ensures StoreOk(Next(s, Break(w)))
  {
    hide UniqueKeys, Stored, TaskOk, DocSet, StoreOk;
    var p := s.workers[w];
    WorkerBehind(s, w);
    var t := s.(loose := s.loose + DocSet(p.task));
    SendingTask(s, p);
    LooseGrows(s, t, DocSet(p.task));
    AgainBehind(t, p.task, p.attempt);
    StoreOkMove(t, w, Again(p.task, p.attempt));
  }

  lemma SendingTask(s: State, p: Phase)
    requires p.Sending? && Behind(s, p)
    ensures TaskOk(p.task) && p.task.docs != [] && DocSet(p.task) <= s.known
  {
  }

  lemma LooseGrows(s: State, t: State, more: set<Doc>)
    requires StoreOk(s) && t == s.(loose := s.loose + more) && more <= s.known
    ensures StoreOk(t)
  {
    hide UniqueKeys, Behind, Stored;
    StoreOkGrows(s, t);
  }

  lemma StrayKeepsStore(s: State, d: Doc)
    requires StoreOk(s) && d in s.loose
    ensures StoreOk(s.(store := Put(s.store, d)))
  {
    hide UniqueKeys, Behind, Stored, Put, Has;
    PutGrows(s.store, d);
    GrowByKnown(s, s.(store := Put(s.store, d)));
  }

  lemma ElsewhereKeepsStore(s: State, d: Doc)
    requires StoreOk(s)
    ensures StoreOk(s.(store := Put(s.store, d), known := s.known + {d}))
  {
    hide UniqueKeys, Behind, Stored, Put, Has;
    PutGrows(s.store, d);
    StoreOkGrows(s, s.(store := Put(s.store, d), known := s.known + {d}));
  }

  lemma TakeKeepsStore(s: State, w: nat)
    requires StoreOk(s) && Possible(s, TakeTask(w))
    ensures StoreOk(Next(s, TakeTask(w)))
  {
    hide UniqueKeys, Stored, DocSet, Has, Behind;
    var (queue, seen) := Apply(s.queue, Op<Task>.Pop);
    var t := s.(queue := queue);
    assert StoreOk(t) by {
      forall i | 0 <= i < |t.workers|
        ensures Behind(t, t.workers[i])
      {
        BehindGrows(s, t, s.workers[i]);
      }
    }
    if seen.Got? {
      BeginBehind(t, seen.item);
    } else {
      IdleBehind(t, Exited);
    }
    StoreOkMove(t, w, Next(s, TakeTask(w)).workers[w]);
  }

  lemma BeginBehind(s: State, t: Task)
    requires TaskOk(t) && DocSet(t) <= s.known
    ensures Behind(s, Begin(t))
  {
    assert t.docs[..0] == [];
  }

  lemma IdleBehind(s: State, p: Phase)
    requires p.Idle? || p.Exited?
    ensures Behind(s, p)
  {
  }

  lemma DoneKeepsStore(s: State, w: nat)
    requires StoreOk(s) && Possible(s, CountDone(w))
    ensures StoreOk(Next(s, CountDone(w)))
  {
    hide UniqueKeys, Stored, DocSet, Has, Behind, StoreOk;
    var p := s.workers[w];
    var t := s.(persisted := s.persisted + (if p.ok then |p.task.docs| else 0),
                dbFailed := s.dbFailed + (if p.ok then 0 else |p.task.docs|),
                stored := s.stored + (if p.ok then multiset{p.task} else multiset{}),
                failed := s.failed + (if p.ok then multiset{} else multiset{p.task}));
    WorkerBehind(s, w);
    CountsKeepStore(s, t, p);
    IdleBehind(t, Idle);
    StoreOkMove(t, w, Idle);
  }

  lemma CountsKeepStore(s: State, t: State, p: Phase)
    requires StoreOk(s) && p.Finished? && Behind(s, p)
    requires t == s.(persisted := t.persisted, dbFailed := t.dbFailed, stored := t.stored, failed := t.failed)
    requires t.stored == s.stored + (if p.ok then multiset{p.task} else multiset{})
    ensures StoreOk(t)
  {
    hide UniqueKeys, Stored, DocSet, Has, PhaseOk;
    forall i | 0 <= i < |t.workers|
      ensures Behind(t, t.workers[i])
    {
      BehindGrows(s, t, s.workers[i]);
    }
  }

  lemma UploadKeepsStore(s: State, task: Task)
    requires StoreOk(s) && Possible(s, Upload(task))
    ensures StoreOk(Next(s, Upload(task)))
  {
    hide UniqueKeys, Stored, DocSet, Has, Behind;
    var mid := s.(known := s.known + DocSet(task));
    StoreOkGrows(s, mid);
    var t := Next(s, Upload(task));
    forall i | 0 <= i < |t.workers|
      ensures Behind(t, t.workers[i])
    {
      BehindGrows(s, t, s.workers[i]);
    }
  }

  lemma OtherKeepsStore(s: State, step: Step)
    requires StoreOk(s) && Possible(s, step) && (step.CountAccepted? || step.ServerDown? || step.CloseQueue?)
    ensures StoreOk(Next(s, step))
  {
    hide UniqueKeys, Stored, DocSet, Has, Behind;
    var t := Next(s, step);
    forall i | 0 <= i < |t.workers|
      ensures Behind(t, t.workers[i])
    {
      BehindGrows(s, t, s.workers[i]);
    }
  }

  lemma NextKeepsStore(s: State, step: Step)
    requires StoreOk(s) && Possible(s, step)
    ensures StoreOk(Next(s, step))
  {
    hide StoreOk, Next, PhaseOk, EndOf;
    match step {
      case Upload(task) => UploadKeepsStore(s, task);
      case CountAccepted(_) => OtherKeepsStore(s, step);
      case TakeTask(w) => TakeKeepsStore(s, w);
      case ServeOne(w, faulty) => ServeKeepsStore(s, w, faulty);
      case Answer(w, concernMet, listsNone) => AnswerKeepsStore(s, w, concernMet, listsNone);
      case Break(w) => BreakKeepsStore(s, w);
      case Stray(d) =>
        StrayNext(s, d);
        StrayKeepsStore(s, d);
      case Elsewhere(d) =>
        ElsewhereNext(s, d);
        ElsewhereKeepsStore(s, d);
      case CountDone(w) => DoneKeepsStore(s, w);
      case ServerDown => OtherKeepsStore(s, step);
      case CloseQueue => OtherKeepsStore(s, step);
    }
  }

  lemma StrayNext(s: State, d: Doc)
    requires Possible(s, Stray(d))
    ensures Next(s, Stray(d)) == s.(store := Put(s.store, d))
  {
  }

  lemma ElsewhereNext(s: State, d: Doc)
    ensures Possible(s, Elsewhere(d)) && Next(s, Elsewhere(d)) == s.(store := Put(s.store, d), known := s.known + {d})
  {
  }

  // Order of shutdown.

  lemma NextOrderly(s: State, step: Step)
    requires Orderly(s) && Possible(s, step)
    ensures Orderly(Next(s, step))
  {
    hide PhaseOk, EndOf, Put, DocSet, Begin, Next, Possible;
    match step {
      case TakeTask(w) => TakeOrderly(s, w);
      case ServeOne(w, _) => WorkerOrderly(s, step, w);
      case Answer(w, _, _) => WorkerOrderly(s, step, w);
      case Break(w) => WorkerOrderly(s, step, w);
      case CountDone(w) => WorkerOrderly(s, step, w);
      case _ => OtherOrderly(s, step);
    }
  }

  lemma WorkerOrderly(s: State, step: Step, w: nat)
    requires Orderly(s) && Possible(s, step)
    requires (step.Answer? && step.w == w) || step == Break(w) || step == CountDone(w)
             || (step.ServeOne? && step.w == w)
    ensures Orderly(Next(s, step))
  {
    hide PhaseOk, EndOf, Put, DocSet;
  }

  lemma OtherOrderly(s: State, step: Step)
    requires Orderly(s) && Possible(s, step)
    requires step.Upload? || step.CountAccepted? || step.Stray? || step.Elsewhere? || step.ServerDown?
             || step.CloseQueue?
    ensures Orderly(Next(s, step))
  {
    hide Put, DocSet;
  }

  lemma TakeOrderly(s: State, w: nat)
    requires Orderly(s) && Possible(s, TakeTask(w))
    ensures Orderly(Next(s, TakeTask(w)))
  {
  }

  lemma NextKeeps(s: State, step: Step)
    requires Inv(s) && Possible(s, step)
    ensures Inv(Next(s, step))
  {
    hide Conserved, TasksConserved, StoreOk, Orderly, Possible, Next;
    NextConserves(s, step);
    NextKeepsTasks(s, step);
    NextKeepsStore(s, step);
    NextOrderly(s, step);
  }

  // Runs.

  /** The collection need not be empty when a collector starts. */
  predicate Initial(s: State)
  {
    && s.queue.capacity > 0 && s.queue.items == [] && !s.queue.closed && s.between == []
    && s.accepted == s.rejected == s.persisted == s.dbFailed == 0
    && s.submitted == s.stored == s.failed == multiset{} && s.loose == {}
    && UniqueKeys(s.store) && (forall d :: d in s.store ==> d in s.known)
    && forall w :: 0 <= w < |s.workers| ==> s.workers[w].Idle?
  }

  lemma {:induction false} AllIdle(workers: seq<Phase>)
    requires forall w :: 0 <= w < |workers| ==> HeldTask(workers[w]) == []
    ensures HeldRecords(workers) == 0 && HeldTasks(workers) == multiset{}
  {
    if workers != [] {
      assert HeldTask(workers[0]) == [];
      AllIdle(workers[1..]);
    }
  }

  lemma InitialInv(s: State)
    requires Initial(s)
    ensures Inv(s)
  {
    AllIdle(s.workers);
  }

  predicate IsRun(states: seq<State>, steps: seq<Step>)
  {
    && |states| == |steps| + 1 && Initial(states[0])
    && forall i :: 0 <= i < |steps| ==> Possible(states[i], steps[i]) && states[i + 1] == Next(states[i], steps[i])
  }

  lemma {:induction false} InEveryState(states: seq<State>, steps: seq<Step>, i: nat)
    requires IsRun(states, steps) && i < |states|
    ensures Inv(states[i])
  {
    hide Inv, Possible, Next, Initial;
    if i == 0 {
      InitialInv(states[0]);
    } else {
      InEveryState(states, steps, i - 1);
      NextKeeps(states[i - 1], steps[i - 1]);
    }
  }

  // Main results.

  /** In every state: what was counted as accepted, and what is about to be, is persisted, failed for good,
    * queued or in the hands of a worker. */
  lemma Conservation(states: seq<State>, steps: seq<Step>, i: nat)
    requires IsRun(states, steps) && i < |states|
    ensures var s := states[i];
            s.accepted + Total(s.between)
              == s.persisted + s.dbFailed + QueuedRecords(s.queue.items) + HeldRecords(s.workers)
  {
    hide Next, Possible, StoreOk, Orderly, HeldRecords, Total, QueuedRecords;
    InEveryState(states, steps, i);
  }

  predicate ShutDown(s: State)
  {
    s.queue.closed && s.workers != [] && forall w :: 0 <= w < |s.workers| ==> s.workers[w].Exited?
  }

  /** After the server was shut down and the workers were stopped, nothing is in flight. */
  lemma ShutdownDrains(states: seq<State>, steps: seq<Step>, i: nat)
    requires IsRun(states, steps) && i < |states| && ShutDown(states[i])
    ensures var s := states[i];
            && s.accepted == s.persisted + s.dbFailed && s.queue.items == [] && s.between == []
               && Snapshot(s).inflight == 0
            && s.submitted == s.stored + s.failed
  {
    hide Next, Possible, StoreOk, HeldRecords;
    InEveryState(states, steps, i);
    assert states[i].workers[0].Exited?;
    AllIdle(states[i].workers);
  }

  const WRAP: nat := Bytes.U64

  datatype Metrics = Metrics(accepted: nat, rejected: nat, persisted: nat, dbFailed: nat, inflight: nat)

  /** `collector_loss_metrics_snapshot`: the subtraction is unsigned. */
  function Report(accepted: nat, rejected: nat, persisted: nat, dbFailed: nat): Metrics
  {
    Metrics(accepted, rejected, persisted, dbFailed, (accepted - persisted - dbFailed) % WRAP)
  }

  function Snapshot(s: State): Metrics
  {
    Report(s.accepted, s.rejected, s.persisted, s.dbFailed)
  }

  /** The reported in-flight number is what is queued and held, less the uploads that are not yet counted;
    * it wraps around to a huge number if and only if those outweigh what is queued and held. */
  lemma SnapshotInflight(states: seq<State>, steps: seq<Step>, i: nat)
    requires IsRun(states, steps) && i < |states|
    requires var s := states[i]; QueuedRecords(s.queue.items) + HeldRecords(s.workers) + Total(s.between) < WRAP / 2
    ensures var s := states[i];
            var pending, uncounted := QueuedRecords(s.queue.items) + HeldRecords(s.workers), Total(s.between);
            && (uncounted <= pending ==> Snapshot(s).inflight == pending - uncounted)
            && (uncounted > pending ==> Snapshot(s).inflight == WRAP - (uncounted - pending) > WRAP / 2)
            && (Snapshot(s).inflight == pending <==> uncounted == 0)
            && Snapshot(s).(inflight := 0) == Metrics(s.accepted, s.rejected, s.persisted, s.dbFailed, 0)
  {
    hide Next, Possible, StoreOk, Orderly, HeldRecords, Total, QueuedRecords;
    InEveryState(states, steps, i);
    var s := states[i];
    var pending, uncounted := QueuedRecords(s.queue.items) + HeldRecords(s.workers), Total(s.between);
    assert s.accepted - s.persisted - s.dbFailed == pending - uncounted;
    if uncounted > pending {
      assert (pending - uncounted) % WRAP == pending - uncounted + WRAP;
    }
  }

  /** How often a document is in the store. */
  lemma {:induction false} OnceEach(store: seq<Doc>, d: Doc)
    requires UniqueKeys(store) && d in store
    ensures multiset(store)[d] == 1
  {
    var last := store[|store| - 1];
    var init := store[..|store| - 1];
    assert store == init + [last];
    if d == last {
      assert d !in init;
    } else {
      OnceEach(init, d);
    }
  }

  /** Exactly-once storage, from the invariant. */
  lemma StoredInState(s: State, t: Task, k: nat)
    requires Inv(s)
    ensures UniqueKeys(s.store) && forall d :: d in s.store ==> d in s.known
    ensures t in s.stored && k < |t.docs| ==> Has(s.store, t.docs[k].key)
    ensures t in s.stored && k < |t.docs| && Distinguishes(iset d | d in s.known) ==> multiset(s.store)[t.docs[k]] == 1
  {
    hide Behind, Orderly, Conserved, TasksConserved;
    if t in s.stored && k < |t.docs| {
      TaskDoc(t, k);
      if Distinguishes(iset d | d in s.known) {
        KeyMeansDocument(s.store, t.docs[k], iset d | d in s.known);
        OnceEach(s.store, t.docs[k]);
      }
    }
  }

  /** At any time, whatever was in the collection before or came from other collectors, whatever was resent, retried,
    * interleaved or cut off: no two stored documents share a key; and of every task completed as ok each document
    * is in the store once, provided that different documents never share a key. */
  lemma ExactlyOnce(states: seq<State>, steps: seq<Step>, i: nat, t: Task, k: nat)
    requires IsRun(states, steps) && i < |states|
    ensures UniqueKeys(states[i].store) && forall d :: d in states[i].store ==> d in states[i].known
    ensures t in states[i].stored && k < |t.docs| ==> Has(states[i].store, t.docs[k].key)
    ensures t in states[i].stored && k < |t.docs| && Distinguishes(iset d | d in states[i].known) ==>
              multiset(states[i].store)[t.docs[k]] == 1
  {
    hide IsRun, Inv, UniqueKeys, Has, Distinguishes;
    InEveryState(states, steps, i);
    StoredInState(states[i], t, k);
  }

  /** A step adds at most one document to the collection, under a new key. */
  lemma StoresOne(s: State, step: Step)
    requires Possible(s, step)
    ensures var n := Next(s, step).store;
            n == s.store || (n != [] && n == s.store + [n[|n| - 1]] && !Has(s.store, n[|n| - 1].key))
  {
    hide PhaseOk, EndOf, Has, DocSet, OnReply;
  }

  // A run whose report wraps around.

  const ONE_DOC := Doc(Key(1, "10.0.0.1", 7), [])
  const ONE_TASK := Task([ONE_DOC], [1])

  /** One worker, before anything happened. */
  const START := State(Limits(0, 0), true, Queue(1, [], false), [], [Idle], [], {}, 0, 0, 0, 0,
                       multiset{}, multiset{}, multiset{}, {})

  const QUEUED := START.(queue := Queue(1, [ONE_TASK], false), between := [1], submitted := multiset{ONE_TASK},
                         known := {ONE_DOC})
  const SENT := QUEUED.(queue := Queue(1, [], false), workers := [Sending(ONE_TASK, 0, 0, 0, [])])
  const SERVED := SENT.(store := [ONE_DOC], workers := [Sending(ONE_TASK, 0, 0, 1, [])])
  const ANSWERED := SERVED.(workers := [Finished(ONE_TASK, true)])
  const COUNTED := ANSWERED.(persisted := 1, stored := multiset{ONE_TASK}, workers := [Idle])

  lemma FirstSteps()
    ensures Possible(START, Upload(ONE_TASK)) && Next(START, Upload(ONE_TASK)) == QUEUED
    ensures Possible(QUEUED, TakeTask(0)) && Next(QUEUED, TakeTask(0)) == SENT
  {
    assert DocSet(ONE_TASK) == {ONE_DOC};
  }

  lemma MiddleStep()
    ensures Possible(SENT, ServeOne(0, false)) && Next(SENT, ServeOne(0, false)) == SERVED
  {
    assert ChunkEnd([1], Limits(0, 0), 0) == 1;
    assert Put([], ONE_DOC) == [ONE_DOC];
    var none: seq<WriteError> := [];
    assert ErrorOf([], ONE_DOC, 0, false) == none && none + none == none;
    var n := Next(SENT, ServeOne(0, false));
    assert n.workers[0] == Sending(ONE_TASK, 0, 0, 1, none);
    assert n.workers == SERVED.workers;
  }

  lemma LastSteps()
    ensures Possible(SERVED, Answer(0, true, true)) && Next(SERVED, Answer(0, true, true)) == ANSWERED
    ensures Possible(ANSWERED, CountDone(0)) && Next(ANSWERED, CountDone(0)) == COUNTED
  {
    assert ChunkEnd([1], Limits(0, 0), 0) == 1;
  }

  /** A worker may insert, finish and count a task before the upload that queued it is counted as accepted. A
    * report made at that moment says that 2^64 - 1 records are in flight. */
  lemma InflightWraps() returns (states: seq<State>, steps: seq<Step>)
    ensures IsRun(states, steps) && |steps| == 5
    ensures Snapshot(states[5]) == Metrics(0, 0, 1, 0, WRAP - 1)
  {
    hide Possible, Next;
    FirstSteps();
    MiddleStep();
    LastSteps();
    steps := [Upload(ONE_TASK), TakeTask(0), ServeOne(0, false), Answer(0, true, true), CountDone(0)];
    states := [START, QUEUED, SENT, SERVED, ANSWERED, COUNTED];
  }
}
