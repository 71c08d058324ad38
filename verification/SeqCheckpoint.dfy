/** Event sequence numbers across crashes and clean exits: a block is reserved on disk ahead of use. */
module SeqCheckpoint {
  import opened Wrappers

  const DEFAULT_RESERVE_STEP: nat := 1000000

  /** The agent's checkpoint file and what is in memory. A file that is missing or unreadable reads as 0.
    * `reading` is the number a poll has read and not finished with; `base` is the one read by the last
    * finished poll, or the start. `handed` are the numbers of this epoch that were handed out and not consumed;
    * `consumed` counts the events taken off the ring by epoch and number. */
  datatype State = State(
    step: nat, file: nat, running: bool, epoch: nat,
    start: nat, cur: nat, upper: nat, base: nat, reading: Option<nat>,
    handed: set<nat>, consumed: multiset<(nat, nat)>)

  datatype Step =
    | Start(writeOk: bool, setOk: bool)
    | Issue
    | Consume(n: nat)
    | PollRead
    | PollWrite(writeOk: bool)
    | Crash
    | CleanExit(writeOk: bool)

  function Half(s: State): nat { s.step / 2 }

  /** Reserves the first block. If the kernel map cannot be set, the numbers start over at 0. */
  function Started(s: State, writeOk: bool, setOk: bool): State
  {
    var from := if setOk then s.file else 0;
    State(s.step, if writeOk then s.file + s.step else s.file, true, s.epoch + 1,
          from, from, s.file + s.step, from, None, {}, s.consumed)
  }

  /** Reserves another block when less than half of the last one is left; the bound in memory moves even if
    * the write fails. */
  function Polled(s: State, writeOk: bool): State
    requires s.reading.Some?
  {
    var cur := s.reading.value;
    var s' := s.(base := cur, reading := None);
    if cur + Half(s) >= s.upper then s'.(upper := cur + s.step, file := if writeOk then cur + s.step else s.file)
    else s'
  }

  predicate Possible(s: State, a: Step)
  {
    match a
    case Start(_, _) => !s.running
    case Issue => s.running
    case Consume(n) => s.running && n in s.handed
    case PollRead => s.running && s.reading.None?
    case PollWrite(_) => s.running && s.reading.Some?
    case Crash => s.running
    case CleanExit(_) => s.running && s.reading.None?
  }

  function Next(s: State, a: Step): State
    requires Possible(s, a)
  {
    match a
    case Start(writeOk, setOk) => Started(s, writeOk, setOk)
    case Issue => s.(cur := s.cur + 1, handed := s.handed + {s.cur + 1})
    case Consume(n) => s.(handed := s.handed - {n}, consumed := s.consumed + multiset{(s.epoch, n)})
    case PollRead => s.(reading := Some(s.cur))
    case PollWrite(writeOk) => Polled(s, writeOk)
    case Crash => s.(running := false, reading := None)
    case CleanExit(writeOk) => s.(running := false, file := if writeOk then s.cur else s.file)
  }

  /** The conditions: the writes of the start and of the polls and the map update succeed, and from one poll's
    * read, or the start, to the end of the next poll's write no more than half a block is issued. The write on
    * a clean exit may fail. */
  predicate Kept(s: State, a: Step)
  {
    match a
    case Start(writeOk, setOk) => writeOk && setOk
    case Issue => s.cur + 1 <= s.base + Half(s)
    case PollWrite(writeOk) => writeOk
    case _ => true
  }

  predicate Initial(s: State)
  {
    !s.running && s.consumed == multiset{} && s.reading.None?
  }

  predicate Steps(states: seq<State>, steps: seq<Step>)
  {
    && |states| == |steps| + 1
    && forall i :: 0 <= i < |steps| ==> Possible(states[i], steps[i]) && states[i + 1] == Next(states[i], steps[i])
  }

  predicate IsRun(states: seq<State>, steps: seq<Step>)
  {
    Steps(states, steps) && Initial(states[0])
  }

  predicate AllKept(states: seq<State>, steps: seq<Step>)
  {
    |states| == |steps| + 1 && forall i :: 0 <= i < |steps| ==> Kept(states[i], steps[i])
  }

  /** No two consumed events share a number, be they of one epoch or of two. */
  predicate NoReuse(s: State)
  {
    && (forall a, b :: a in s.consumed && b in s.consumed && a.1 == b.1 ==> a == b)
    && (forall a :: a in s.consumed ==> s.consumed[a] == 1)
  }

  /** Everything consumed lies below the number on disk, with the rest of the half block still covered. */
  predicate Inv(s: State)
  {
    && NoReuse(s)
    && (forall a :: a in s.consumed ==> a.0 <= s.epoch && a.1 <= s.file)
    && (s.running ==>
          && s.start <= s.base <= s.cur <= s.base + Half(s) <= s.file
          && s.upper == s.file
          && (s.reading.Some? ==> s.base <= s.reading.value <= s.cur)
          && (forall n :: n in s.handed ==> s.start < n <= s.cur && (s.epoch, n) !in s.consumed)
          && forall a :: a in s.consumed ==> if a.0 < s.epoch then a.1 <= s.start else s.start < a.1 <= s.cur)
  }

  lemma NextKeeps(s: State, a: Step)
    requires Inv(s) && Possible(s, a) && Kept(s, a)
    ensures Inv(Next(s, a))
  {
    hide Inv, Started, Polled;
    match a {
      case Start(_, _) => StartKeeps(s);
      case Issue => IssueKeeps(s);
      case Consume(n) => ConsumeKeeps(s, n);
      case PollWrite(_) => PollKeeps(s);
      case _ => OthersKeep(s, a);
    }
  }

  lemma OthersKeep(s: State, a: Step)
    requires Inv(s) && Possible(s, a) && (a.PollRead? || a.Crash? || a.CleanExit?)
    ensures Inv(Next(s, a))
  {
    hide NoReuse;
    SameReuse(s, Next(s, a));
  }

  lemma StartKeeps(s: State)
    requires Inv(s) && !s.running
    ensures Inv(Started(s, true, true))
  {
    hide NoReuse;
    SameReuse(s, Started(s, true, true));
  }

  lemma IssueKeeps(s: State)
    requires Inv(s) && Possible(s, Issue) && Kept(s, Issue)
    ensures Inv(Next(s, Issue))
  {
    hide NoReuse;
    SameReuse(s, Next(s, Issue));
  }

  lemma PollKeeps(s: State)
    requires Inv(s) && s.running && s.reading.Some?
    ensures Inv(Polled(s, true))
  {
    hide NoReuse;
    SameReuse(s, Polled(s, true));
  }

  lemma SameReuse(s: State, t: State)
    requires NoReuse(s) && t.consumed == s.consumed
    ensures NoReuse(t)
  {
  }

  lemma ConsumeKeeps(s: State, n: nat)
    requires Inv(s) && Possible(s, Consume(n))
    ensures Inv(Next(s, Consume(n)))
  {
    FreshConsume(s, n);
    hide NoReuse;
  }

  /** Consuming a number that no consumed event has yet repeats nothing. */
  lemma FreshConsume(t: State, n: nat)
    requires Possible(t, Consume(n)) && NoReuse(t) && forall a :: a in t.consumed ==> a.1 != n
    ensures NoReuse(Next(t, Consume(n)))
  {
    assert (t.epoch, n) !in t.consumed;
  }

  lemma {:induction false} InEveryState(states: seq<State>, steps: seq<Step>, i: nat)
    requires IsRun(states, steps) && AllKept(states, steps) && i < |states|
    ensures Inv(states[i])
  {
    hide Inv, Next, Possible, Kept;
    if i == 0 {
      assert Inv(states[0]) by { InitialInv(states[0]); }
    } else {
      InEveryState(states, steps, i - 1);
      NextKeeps(states[i - 1], steps[i - 1]);
    }
  }

  lemma InitialInv(s: State)
    requires Initial(s)
    ensures Inv(s)
  {
  }

  /** Through any number of crashes and clean exits, at whatever moment, no two consumed events share a
    * number, and none is above the number on disk. */
  lemma NumbersUnique(states: seq<State>, steps: seq<Step>, i: nat)
    requires IsRun(states, steps) && AllKept(states, steps) && i < |states|
    ensures NoReuse(states[i]) && forall a :: a in states[i].consumed ==> a.1 <= states[i].file
  {
    InEveryState(states, steps, i);
  }

  /** The state after `k` more numbers were handed out. */
  function Issued(s: State, k: nat): (t: State)
    requires s.running
    ensures t == s.(cur := s.cur + k, handed := t.handed)
    ensures forall n: nat :: n in t.handed <==> n in s.handed || s.cur < n <= s.cur + k
  {
    if k == 0 then s else Next(Issued(s, k - 1), Issue)
  }

  /** The state after a crash, a restart, and `k` numbers handed out. */
  function Restarted(s: State, k: nat): State
    requires s.running
  {
    Issued(Next(Next(s, Crash), Start(true, true)), k)
  }

  /** Without any condition on the past: a crash is harmless if and only if nothing consumed lies above the
    * number on disk. Otherwise the restarted agent hands out and consumes some number again. */
  lemma CrashExact(s: State)
    requires s.running && NoReuse(s) && forall a :: a in s.consumed ==> a.0 <= s.epoch
    ensures (forall k: nat, n: nat :: Possible(Restarted(s, k), Consume(n)) ==>
               NoReuse(Next(Restarted(s, k), Consume(n))))
            <==> (forall a :: a in s.consumed ==> a.1 <= s.file)
  {
    forall a | a in s.consumed && a.1 > s.file
      ensures exists k: nat, n: nat ::
                Possible(Restarted(s, k), Consume(n)) && !NoReuse(Next(Restarted(s, k), Consume(n)))
    {
      var k: nat, n := a.1 - s.file, a.1;
      var t := Restarted(s, k);
      assert Possible(t, Consume(n));
      RepeatedConsume(t, n, a.0);
    }
    if forall a :: a in s.consumed ==> a.1 <= s.file {
      forall k: nat, n: nat | Possible(Restarted(s, k), Consume(n))
        ensures NoReuse(Next(Restarted(s, k), Consume(n)))
      {
        FreshConsume(Restarted(s, k), n);
      }
    }
  }

  /** Consuming a number that another epoch consumed repeats it. */
  lemma RepeatedConsume(t: State, n: nat, epoch: nat)
    requires Possible(t, Consume(n)) && (epoch, n) in t.consumed && epoch != t.epoch
    ensures !NoReuse(Next(t, Consume(n)))
  {
    var u := Next(t, Consume(n));
    assert (epoch, n) in u.consumed && (t.epoch, n) in u.consumed && (epoch, n) != (t.epoch, n);
  }

  /** The number on disk need not be strictly above every number handed out: after a clean exit it is the last
    * one. The next start goes on behind it, so nothing is repeated. */
  lemma CleanExitReachesTheEdge(s: State)
    requires Inv(s) && Possible(s, CleanExit(true)) && (s.epoch, s.cur) in s.consumed
    ensures var t := Next(s, CleanExit(true));
            && t.file == s.cur && (exists a :: a in t.consumed && a.1 == t.file)
            && Next(Next(t, Start(true, true)), Issue).cur == t.file + 1
  {
    var t := Next(s, CleanExit(true));
    assert (s.epoch, s.cur) in t.consumed;
  }

  /** The bound is never more than a block ahead of the counter that was read, and a poll that moves it moves it by half
    * a block at least: so over any number of polls, each half block of numbers costs at most one write. */
  lemma PollRaises(s: State, writeOk: bool)
    requires s.running && s.step > 0 && s.reading.Some? && s.reading.value <= s.upper
    ensures var t := Polled(s, writeOk);
            && t.reading.None? && t.base == s.reading.value && s.upper <= t.upper
            && (t.upper != s.upper ==> t.upper >= s.upper + Half(s) && t.upper == t.base + s.step)
            && (t.upper == s.upper ==> t.base + Half(s) < t.upper)
            && t.file == (if t.upper != s.upper && writeOk then t.upper else s.file)
  {
  }

  // None of the conditions can be dropped.

  ghost predicate BrokenOnlyBy(states: seq<State>, steps: seq<Step>, a: Step)
  {
    |states| == |steps| + 1 && forall i :: 0 <= i < |steps| && !Kept(states[i], steps[i]) ==> steps[i] == a
  }

  lemma JoinSteps(states: seq<State>, steps: seq<Step>, more: seq<State>, later: seq<Step>, a: Step)
    requires Steps(states, steps) && Steps(more, later) && states[|steps|] == more[0]
    requires BrokenOnlyBy(states, steps, a) && BrokenOnlyBy(more, later, a)
    ensures Steps(states + more[1..], steps + later) && BrokenOnlyBy(states + more[1..], steps + later, a)
    ensures (states + more[1..])[|steps + later|] == more[|later|]
  {
    hide Next, Possible, Kept;
    var all, done := states + more[1..], steps + later;
    forall i | |steps| <= i <= |done|
      ensures all[i] == more[i - |steps|]
    {
    }
  }

  const BLANK_4 := State(4, 0, false, 0, 0, 0, 0, 0, None, {}, multiset{})

  /** The bound in memory is 6 now, the one on disk still 4. */
  const BEHIND_4 := State(4, 4, true, 1, 0, 3, 6, 2, None, {1, 2, 3}, multiset{})

  lemma WriteFails() returns (states: seq<State>, steps: seq<Step>)
    ensures Steps(states, steps) && BrokenOnlyBy(states, steps, PollWrite(false))
    ensures states[0] == BLANK_4 && states[|steps|] == BEHIND_4
  {
    steps := [Start(true, true), Issue, Issue, PollRead, PollWrite(false), Issue];
    var s1 := Next(BLANK_4, steps[0]);
    var s2 := Next(s1, Issue);
    var s3 := Next(s2, Issue);
    var s4 := Next(s3, PollRead);
    var s5 := Next(s4, PollWrite(false));
    var s6 := Next(s5, Issue);
    states := [BLANK_4, s1, s2, s3, s4, s5, s6];
  }

  /** After a crash the first number behind the one on disk is handed out; if it was consumed before, it is so again. */
  lemma ComesBack(s: State, a: Step) returns (states: seq<State>, steps: seq<Step>)
    requires s.running && s.step >= 2 && (s.epoch, s.file + 1) in s.consumed
    ensures Steps(states, steps) && BrokenOnlyBy(states, steps, a) && states[0] == s && !NoReuse(states[|steps|])
  {
    hide NoReuse;
    steps := [Crash, Start(true, true), Issue, Consume(s.file + 1)];
    var s1 := Next(s, Crash);
    var s2 := Next(s1, Start(true, true));
    var s3 := Next(s2, Issue);
    assert s3.handed == {s.file + 1};
    RepeatedConsume(s3, s.file + 1, s.epoch);
    states := [s, s1, s2, s3, Next(s3, Consume(s.file + 1))];
  }

  /** Number 5 is consumed while the bound on disk is 4. */
  lemma BeyondTheFile() returns (states: seq<State>, steps: seq<Step>)
    ensures Steps(states, steps) && BrokenOnlyBy(states, steps, PollWrite(false)) && states[0] == BEHIND_4
    ensures var t := states[|steps|]; t.running && t.step == 4 && t.file == 4 && (t.epoch, 5) in t.consumed
  {
    steps := [PollRead, PollWrite(true), Issue, Issue, Consume(5)];
    var s1 := Next(BEHIND_4, PollRead);
    var s2 := Next(s1, PollWrite(true));
    var s3 := Next(s2, Issue);
    var s4 := Next(s3, Issue);
    states := [BEHIND_4, s1, s2, s3, s4, Next(s4, Consume(5))];
  }

  /** One poll whose write fails is enough: the bound in memory has moved, so the next poll does not try again,
    * and after a crash number 5 is consumed a second time. The other condition is kept all along. */
  lemma FailedWriteRepeats() returns (states: seq<State>, steps: seq<Step>)
    ensures IsRun(states, steps) && BrokenOnlyBy(states, steps, PollWrite(false)) && !NoReuse(states[|steps|])
  {
    hide Next, Possible, Kept, NoReuse;
    var first, firstSteps := WriteFails();
    var second, secondSteps := BeyondTheFile();
    JoinSteps(first, firstSteps, second, secondSteps, PollWrite(false));
    states, steps := first + second[1..], firstSteps + secondSteps;
    var third, thirdSteps := ComesBack(states[|steps|], PollWrite(false));
    JoinSteps(states, steps, third, thirdSteps, PollWrite(false));
    states, steps := states + third[1..], steps + thirdSteps;
  }

  const BLANK := State(2, 0, false, 0, 0, 0, 0, 0, None, {}, multiset{})

  const OVERRUN := State(2, 2, true, 1, 0, 3, 2, 0, None, {1, 2}, multiset{(1, 3)})

  lemma Overruns() returns (states: seq<State>, steps: seq<Step>)
    ensures Steps(states, steps) && BrokenOnlyBy(states, steps, Issue)
    ensures states[0] == BLANK && states[|steps|] == OVERRUN
  {
    steps := [Start(true, true), Issue, Issue, Issue, Consume(3)];
    var s1 := Next(BLANK, steps[0]);
    var s2 := Next(s1, Issue);
    var s3 := Next(s2, Issue);
    var s4 := Next(s3, Issue);
    assert s4.handed - {3} == {1, 2};
    states := [BLANK, s1, s2, s3, s4, Next(s4, Consume(3))];
  }

  /** All writes succeed, but more than half a block is issued without a poll. */
  lemma OverrunRepeats() returns (states: seq<State>, steps: seq<Step>)
    ensures IsRun(states, steps) && BrokenOnlyBy(states, steps, Issue) && !NoReuse(states[|steps|])
  {
    hide Next, Possible, Kept, NoReuse;
    var first, firstSteps := Overruns();
    var second, secondSteps := ComesBack(OVERRUN, Issue);
    JoinSteps(first, firstSteps, second, secondSteps, Issue);
    states, steps := first + second[1..], firstSteps + secondSteps;
  }

  /** An epoch that consumes number 1 and crashes. */
  lemma FirstEpoch(first: Step, bad: Step) returns (states: seq<State>, steps: seq<Step>)
    requires first.Start? && first.setOk && (first.writeOk || first == bad)
    ensures Steps(states, steps) && BrokenOnlyBy(states, steps, bad) && states[0] == BLANK
    ensures var t := states[|steps|];
            !t.running && t.epoch == 1 && t.step == 2 && t.consumed == multiset{(1, 1)}
            && t.file == if first.writeOk then 2 else 0
  {
    steps := [first, Issue, Consume(1), Crash];
    var s1 := Next(BLANK, first);
    var s2 := Next(s1, Issue);
    var s3 := Next(s2, Consume(1));
    states := [BLANK, s1, s2, s3, Next(s3, Crash)];
  }

  /** An epoch whose counter begins at 0 again. */
  lemma SecondEpoch(s: State, second: Step, bad: Step) returns (states: seq<State>, steps: seq<Step>)
    requires !s.running && s.epoch == 1 && s.step == 2 && s.consumed == multiset{(1, 1)}
    requires second.Start? && (Kept(s, second) || second == bad) && (s.file == 0 || !second.setOk)
    ensures Steps(states, steps) && BrokenOnlyBy(states, steps, bad) && states[0] == s && !NoReuse(states[|steps|])
  {
    steps := [second, Issue, Consume(1)];
    var s1 := Next(s, second);
    var s2 := Next(s1, Issue);
    assert s2.handed == {1} && s2.epoch == 2;
    RepeatedConsume(s2, 1, 1);
    states := [s, s1, s2, Next(s2, Consume(1))];
  }

  /** The write at the start fails: nothing was reserved when the agent crashes. */
  lemma FailedStartWriteRepeats() returns (states: seq<State>, steps: seq<Step>)
    ensures IsRun(states, steps) && BrokenOnlyBy(states, steps, Start(false, true)) && !NoReuse(states[|steps|])
  {
    var first, firstSteps := FirstEpoch(Start(false, true), Start(false, true));
    var second, secondSteps := SecondEpoch(first[|firstSteps|], Start(true, true), Start(false, true));
    hide Next, Possible, Kept, NoReuse;
    JoinSteps(first, firstSteps, second, secondSteps, Start(false, true));
    states, steps := first + second[1..], firstSteps + secondSteps;
  }

  /** The kernel map cannot be set: the numbers start over, whatever is on disk. */
  lemma FailedMapUpdateRepeats() returns (states: seq<State>, steps: seq<Step>)
    ensures IsRun(states, steps) && BrokenOnlyBy(states, steps, Start(true, false)) && !NoReuse(states[|steps|])
  {
    var first, firstSteps := FirstEpoch(Start(true, true), Start(true, false));
    var second, secondSteps := SecondEpoch(first[|firstSteps|], Start(true, false), Start(true, false));
    hide Next, Possible, Kept, NoReuse;
    JoinSteps(first, firstSteps, second, secondSteps, Start(true, false));
    states, steps := first + second[1..], firstSteps + secondSteps;
  }

  /** The code that keeps the file: restore at start, the poll of the metrics thread, the last write. */
  class Checkpoint {
    const step: nat
    var file: Option<nat>
    var reservedUpper: nat

    constructor (configuredStep: nat, file: Option<nat>)
      ensures step == (if configuredStep == 0 then DEFAULT_RESERVE_STEP else configuredStep) && this.file == file
    {
      step := if configuredStep == 0 then DEFAULT_RESERVE_STEP else configuredStep;
      this.file := file;
      reservedUpper := 0;
    }

    function OnDisk(): nat
      reads this
    {
      match file case None => 0 case Some(v) => v
    }

    method Write(value: nat, writeOk: bool)
      modifies this`file
      ensures file == if writeOk then Some(value) else old(file)
    {
      if writeOk {
        file := Some(value);
      }
    }

    /** `counter` is the kernel's number afterwards: 0, as the map begins, if it cannot be set. */
    method Restore(ghost s: State, writeOk: bool, setOk: bool) returns (counter: nat)
      requires !s.running && s.step == step && s.file == OnDisk()
      modifies this
      ensures var t := Started(s, writeOk, setOk); counter == t.start && OnDisk() == t.file && reservedUpper == t.upper
      ensures reservedUpper == old(OnDisk()) + step && counter == (if setOk then old(OnDisk()) else 0)
      ensures file == if writeOk then Some(reservedUpper) else old(file)
    {
      var seqStart := OnDisk();
      reservedUpper := seqStart + step;
      Write(reservedUpper, writeOk);
      counter := if setOk then seqStart else 0;
    }

    /** One turn of the polling thread, with the number it read. */
    method Poll(ghost s: State, cur: nat, writeOk: bool)
      requires s.reading == Some(cur) && s.step == step && s.file == OnDisk() && s.upper == reservedUpper
      modifies this
      ensures var t := Polled(s, writeOk); OnDisk() == t.file && reservedUpper == t.upper
      ensures cur + step / 2 < reservedUpper || step < 2
      ensures reservedUpper == old(reservedUpper) || reservedUpper == cur + step
      ensures file == if writeOk && cur + step / 2 >= old(reservedUpper) then Some(reservedUpper) else old(file)
    {
      if cur + step / 2 >= reservedUpper {
        reservedUpper := cur + step;
        Write(reservedUpper, writeOk);
      }
    }

    method Exit(ghost s: State, cur: nat, writeOk: bool)
      requires s.running && s.reading.None? && s.cur == cur && s.file == OnDisk()
      modifies this
      ensures OnDisk() == Next(s, CleanExit(writeOk)).file
      ensures file == if writeOk then Some(cur) else old(file)
    {
      Write(cur, writeOk);
    }
  }
}
