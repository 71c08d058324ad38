/** An agent through any number of processes: the kernel's number counter and its checkpoint, and in each process
  * the probe, the ring, the writer and the sender. */
module AgentLife {
  import opened Bytes
  import opened AuditRecord
  import opened Reassembly
  import opened AgentRecords
  import Check = SeqCheckpoint
  import Acc = AgentAccounting
  import Sender = BatchSender
  import Invariant = SenderInvariant
  import Runs = SenderRuns

  /** `held` are the numbers that calls took and that no main record in the ring carries yet (a call may also use
    * one up for a fragment, or never get to the ring); `past` are the records that the senders of earlier
    * processes had accepted. */
  datatype Life = Life(check: Check.State, held: set<nat>, sys: Acc.System, past: multiset<bytes>)

  datatype Step =
    | Boot(writeOk: bool, setOk: bool, sys: Acc.System)
    | TakeNumber
    | Act(step: Acc.Step)
    | PollRead
    | PollWrite(writeOk: bool)
    | Crash
    | Exit(writeOk: bool)

  /** The agent takes a main record off the ring. */
  predicate TakesMain(s: Acc.System, step: Acc.Step)
  {
    step.AgentConsumes? && s.ring != [] && s.ring[0].EventRecord?
  }

  ghost predicate CanDo(l: Life, a: Step)
  {
    match a
    case Boot(_, _, sys) => !l.check.running && Acc.Initial(sys) && sys.agent.serverIp == l.sys.agent.serverIp
    case TakeNumber => l.check.running
    case Act(step) => l.check.running && Acc.Possible(l.sys, step) && (step.ProbeCaptures? ==> step.key in l.held)
    case PollRead => Check.Possible(l.check, Check.PollRead)
    case PollWrite(ok) => Check.Possible(l.check, Check.PollWrite(ok))
    case Crash => l.check.running
    case Exit(ok) => Check.Possible(l.check, Check.CleanExit(ok))
  }

  /** The checkpoint's view of an accounting step: a main record taken off the ring consumes its number. */
  function Noted(check: Check.State, s: Acc.System, step: Acc.Step): Check.State
  {
    if TakesMain(s, step) && Check.Possible(check, Check.Consume(KeyOf(s.ring[0]))) then
      Check.Next(check, Check.Consume(KeyOf(s.ring[0])))
    else check
  }

  ghost predicate Does(l: Life, a: Step, m: Life)
  {
    CanDo(l, a) &&
    match a
    case Boot(writeOk, setOk, sys) => m == Life(Check.Next(l.check, Check.Start(writeOk, setOk)), {}, sys, l.past)
    case TakeNumber => m == l.(check := Check.Next(l.check, Check.Issue), held := l.held + {l.check.cur + 1})
    case Act(step) =>
      && Acc.Moves(l.sys, step, m.sys) && m.past == l.past && m.check == Noted(l.check, l.sys, step)
      && m.held == (if step.ProbeCaptures? then l.held - {step.key} else l.held)
    case PollRead => m == l.(check := Check.Next(l.check, Check.PollRead))
    case PollWrite(ok) => m == l.(check := Check.Next(l.check, Check.PollWrite(ok)))
    case Crash => m == Life(Check.Next(l.check, Check.Crash), {}, l.sys, l.past + l.sys.sender.accepted)
    case Exit(ok) => m == Life(Check.Next(l.check, Check.CleanExit(ok)), {}, l.sys, l.past + l.sys.sender.accepted)
  }

  /** The checkpoint's conditions, as `SeqCheckpoint.Kept` says them. */
  predicate KeptBy(l: Life, a: Step)
  {
    match a
    case Boot(writeOk, setOk, _) => Check.Kept(l.check, Check.Start(writeOk, setOk))
    case TakeNumber => Check.Kept(l.check, Check.Issue)
    case PollWrite(ok) => Check.Kept(l.check, Check.PollWrite(ok))
    case _ => true
  }

  /** Everything any of the agent's senders has accepted so far. */
  function All(l: Life): multiset<bytes>
  {
    if l.check.running then l.past + l.sys.sender.accepted else l.past
  }

  // The invariant.

  /** A main record of the event is still in the ring. */
  predicate MainAhead(s: Acc.System, key: nat)
  {
    Acc.Lane(s, key) != [] && Acc.Lane(s, key)[0].EventRecord?
  }

  predicate ConsumedBefore(check: Check.State, n: nat, epoch: nat)
  {
    exists e: nat :: e < epoch && (e, n) in check.consumed
  }

  /** Records of closed processes: each once, each under a number consumed then. */
  ghost predicate PastOk(past: multiset<bytes>, check: Check.State, epoch: nat, ip: bytes)
  {
    && (forall r :: r in past ==> ValidRecord(r) && Carries(r, Acc.SeqOf(r), ip) && past[r] == 1
                                  && ConsumedBefore(check, Acc.SeqOf(r), epoch))
    && (forall r, t :: r in past && t in past && Acc.SeqOf(r) == Acc.SeqOf(t) ==> r == t)
  }

  /** Numbers of this process: held by a call, or carried by a main record in the ring, or consumed. */
  ghost predicate NumbersOk(l: Life)
  {
    && (forall n :: n in l.held ==> n in l.check.handed && n !in l.sys.used)
    && (forall n :: n in l.sys.used && n !in l.check.handed ==> (l.check.epoch, n) in l.check.consumed)
    && (!l.sys.closed ==> forall n :: n in l.sys.used ==> (n in l.check.handed <==> MainAhead(l.sys, n)))
    && (forall r :: r in l.sys.sender.accepted ==> (l.check.epoch, Acc.SeqOf(r)) in l.check.consumed)
  }

  ghost predicate Inv(l: Life)
  {
    && Check.Inv(l.check) && |l.sys.agent.serverIp| == MAX_IP_LEN
    && PastOk(l.past, l.check, if l.check.running then l.check.epoch else l.check.epoch + 1, l.sys.agent.serverIp)
    && (l.check.running ==> Acc.Inv(l.sys) && NumbersOk(l))
  }

  /** A number that a call holds is fresh: that two calls cannot get the same one needs no assumption. */
  lemma HeldIsFresh(l: Life, n: nat)
    requires Inv(l) && l.check.running && n in l.held
    ensures n !in l.sys.used && forall e: nat :: (e, n) !in l.check.consumed
  {
    hide Acc.Inv, PastOk;
    forall e: nat
      ensures (e, n) !in l.check.consumed
    {
      if (e, n) in l.check.consumed {
        assert false;
      }
    }
  }

  // What the ring's lanes show of main records.

  lemma CapturedAhead(s: Acc.System, main: KernelRecord, fragments: seq<KernelRecord>, key: nat, n: nat)
    requires Acc.CanCapture(s, main, fragments, key) && (n == key ==> Acc.LaneOk(s, key))
    ensures MainAhead(Acc.Captured(s, main, fragments, key), n) <==> n == key || MainAhead(s, n)
  {
    hide Acc.Own, MainLane;
    Acc.MainFirst(main, fragments, key);
    Acc.OwnAppend(s.ring, main, n);
    if n == key {
      assert Acc.Own(s.ring, key) == [];
      assert Acc.Lane(Acc.Captured(s, main, fragments, key), key)[0] == main;
    }
  }

  lemma EmittedAhead(s: Acc.System, key: nat, room: bool, n: nat)
    requires Acc.Coming(s, key) != [] && Acc.LaneOk(s, key) && Acc.OnlyFragments(s, key)
    ensures MainAhead(Acc.Emitted(s, key, room), n) <==> MainAhead(s, n)
  {
    hide Acc.Own, Acc.LaneOk;
    var t, f := Acc.Emitted(s, key, room), Acc.Coming(s, key)[0];
    Acc.ComingFragment(s, key);
    Acc.OwnAppend(s.ring, f, n);
    if n == key {
      var own := Acc.Own(s.ring, key);
      assert Acc.Lane(s, key)[0] == if own == [] then f else own[0];
      assert Acc.Coming(t, key) == Acc.Coming(s, key)[1..];
      assert forall i :: 0 <= i < |Acc.Coming(t, key)| ==> Acc.Coming(t, key)[i] == Acc.Coming(s, key)[i + 1];
    }
  }

  /** After the head of the ring was taken, no main record of its event is ahead; other events are as before. */
  lemma TakenAhead(s: Acc.System, t: Acc.System, n: nat)
    requires s.ring != [] && t.ring == s.ring[1..] && t.coming == s.coming && Acc.LaneOk(s, KeyOf(s.ring[0]))
    ensures n != KeyOf(s.ring[0]) ==> (MainAhead(t, n) <==> MainAhead(s, n))
    ensures n == KeyOf(s.ring[0]) ==> !MainAhead(t, n) && (MainAhead(s, n) <==> s.ring[0].EventRecord?) && n in s.used
  {
    hide Acc.LaneOk, Acc.Own, KeyOf, WellFragment;
    Acc.SameComing(s, t, n);
    if n == KeyOf(s.ring[0]) {
      var key, rest := Acc.HeadKind(s);
      var _ := Acc.HeadOfLane(s);
      assert Acc.Lane(t, n) == rest;
      FragmentFirst(rest, n);
    } else {
      Acc.OwnOfRest(s.ring, n);
    }
  }

  lemma FragmentFirst(fs: seq<KernelRecord>, key: nat)
    requires FragmentLane(fs, key)
    ensures fs != [] ==> fs[0].FragmentRecord?
  {
  }

  // What each step keeps.

  /** Taking a record off the ring: only its own event can be submitted. */
  lemma ConsumedAccepts(s: Acc.System, grant: Grant, expired: bool)
    requires Acc.Inv(s) && !s.closed && s.ring != [] && AgentOk(s.agent) && RecordOk(s.ring[0])
             && GrantOk(s.ring[0], grant)
    ensures var t := Acc.Consumed(s, grant, expired);
            && t.ring == s.ring[1..] && t.coming == s.coming && t.used == s.used && t.closed == s.closed
            && t.agent.serverIp == s.agent.serverIp && s.sender.accepted <= t.sender.accepted
            && forall r :: r in t.sender.accepted ==> r in s.sender.accepted || Acc.SeqOf(r) == KeyOf(s.ring[0])
  {
    hide Acc.LaneOk, AllSound, AgentOk, RecordOk, GrantOk, HandleEvent, Sender.Inv, Acc.OnlyFragments, ValidRecord;
    hide Carries, Sender.Submit;
    hide Acc.Balanced, Acc.Submitted, KeyOf;
    assert Acc.LaneOk(s, KeyOf(s.ring[0]));
    Acc.OutSame(s.agent, s.ring[0], grant);
    var out := HandleEvent(s.agent, Input(s.ring[0], grant, true)).1;
    if out == [] {
      var key, rest := Acc.HeadSettles(s, grant, true);
    } else {
      Invariant.SubmitKeeps(s.sender, out[0].record, expired);
      var (sender, ok) := Sender.Submit(s.sender, out[0].record, expired);
      var key, rest := Acc.HeadSettles(s, grant, ok);
      Acc.CarriesSeq(out[0].record, key, s.agent.serverIp);
      Acc.OneMore(s.sender.accepted, out[0].record);
    }
  }

  /** What an accounting step leaves alone, for the numbers' sake. */
  ghost predicate Quiet(s: Acc.System, t: Acc.System)
  {
    && t.used == s.used && t.agent.serverIp == s.agent.serverIp && t.sender.accepted == s.sender.accepted
    && (!t.closed ==> !s.closed && forall n :: n in s.used ==> (MainAhead(t, n) <==> MainAhead(s, n)))
  }

  lemma QuietNumbers(l: Life, t: Acc.System)
    requires NumbersOk(l) && Quiet(l.sys, t)
    ensures NumbersOk(l.(sys := t))
  {
    hide MainAhead, Acc.SeqOf;
  }

  lemma RefusedQuiet(s: Acc.System)
    ensures Quiet(s, Acc.Refuse(s))
  {
    hide Acc.Own;
    forall n | n in s.used
      ensures MainAhead(Acc.Refuse(s), n) <==> MainAhead(s, n)
    {
      assert Acc.Lane(Acc.Refuse(s), n) == Acc.Lane(s, n);
    }
  }

  lemma EmittedQuiet(s: Acc.System, key: nat, room: bool)
    requires Acc.Inv(s) && Acc.Coming(s, key) != []
    ensures Quiet(s, Acc.Emitted(s, key, room))
  {
    hide MainAhead, Acc.LaneOk, Acc.OnlyFragments, Sender.Inv, AllSound, Acc.Submitted, Acc.Balanced, Acc.Own;
    if !s.closed {
      forall n | n in s.used
        ensures MainAhead(Acc.Emitted(s, key, room), n) <==> MainAhead(s, n)
      {
        assert Acc.LaneOk(s, key) && Acc.OnlyFragments(s, key);
        EmittedAhead(s, key, room, n);
      }
    }
  }

  lemma CapturedNumbers(l: Life, main: KernelRecord, fragments: seq<KernelRecord>, key: nat)
    requires NumbersOk(l) && Acc.CanCapture(l.sys, main, fragments, key) && key in l.held
    requires !l.sys.closed ==> Acc.LaneOk(l.sys, key)
    ensures NumbersOk(l.(sys := Acc.Captured(l.sys, main, fragments, key), held := l.held - {key}))
  {
    hide MainAhead, Acc.LaneOk, MainLane, Acc.SeqOf;
    var t := Acc.Captured(l.sys, main, fragments, key);
    if !l.sys.closed {
      forall n | n in t.used
        ensures n in l.check.handed <==> MainAhead(t, n)
      {
        CapturedAhead(l.sys, main, fragments, key, n);
      }
    }
  }

  /** A main record in the ring still has its number; taking it off consumes the number. */
  lemma TakenNumbers(l: Life, t: Acc.System, step: Acc.Step)
    requires NumbersOk(l) && !l.sys.closed && step.AgentConsumes? && l.sys.ring != []
             && Acc.LaneOk(l.sys, KeyOf(l.sys.ring[0]))
    requires t.ring == l.sys.ring[1..] && t.coming == l.sys.coming && t.used == l.sys.used && t.closed == l.sys.closed
    requires forall r :: r in t.sender.accepted ==> r in l.sys.sender.accepted || Acc.SeqOf(r) == KeyOf(l.sys.ring[0])
    requires l.check.running
    ensures TakesMain(l.sys, step) ==> KeyOf(l.sys.ring[0]) in l.check.handed
    ensures NumbersOk(l.(sys := t, check := Noted(l.check, l.sys, step)))
  {
    hide MainAhead, Acc.LaneOk, Acc.SeqOf, KeyOf;
    var key := KeyOf(l.sys.ring[0]);
    TakenAhead(l.sys, t, key);
    assert key in l.sys.used;
    var check := Noted(l.check, l.sys, step);
    assert (check.epoch, key) in check.consumed;
    forall n | n in t.used
      ensures n in check.handed <==> MainAhead(t, n)
    {
      TakenAhead(l.sys, t, n);
    }
  }

  lemma ActNumbers(l: Life, step: Acc.Step, t: Acc.System)
    requires Inv(l) && l.check.running && Acc.Moves(l.sys, step, t) && (step.ProbeCaptures? ==> step.key in l.held)
    ensures NumbersOk(Life(Noted(l.check, l.sys, step), if step.ProbeCaptures? then l.held - {step.key}
                                                        else l.held, t, l.past))
    ensures t.agent.serverIp == l.sys.agent.serverIp && l.sys.sender.accepted <= t.sender.accepted
    ensures TakesMain(l.sys, step) ==> Check.Possible(l.check, Check.Consume(KeyOf(l.sys.ring[0])))
  {
    hide NumbersOk, PastOk, Acc.LaneOk, Acc.OnlyFragments, AllSound, Sender.Inv, Acc.Submitted, Acc.Balanced;
    hide Acc.Ready, KeyOf;
    hide Acc.Captured, Acc.Emitted, Acc.Consumed, Acc.GivenUp, Acc.Refuse, Acc.CanCapture, Quiet, Check.Inv;
    hide MainLane, Runs.Next, Runs.Possible;
    var s := l.sys;
    Acc.IsReady(s);
    match step {
      case ProbeDrops => RefusedQuiet(s); QuietNumbers(l, t); QuietIp(s, t);
      case ProbeCaptures(main, fragments, key) =>
        assert !s.closed ==> Acc.LaneOk(s, key);
        CapturedNumbers(l, main, fragments, key);
        CapturedIp(s, main, fragments, key);
      case ProbeEmits(of, room) => EmittedQuiet(s, of, room); QuietNumbers(l, t); QuietIp(s, t);
      case AgentConsumes(grant, expired) =>
        Acc.ReadyMeans(s);
        ConsumedAccepts(s, grant, expired);
        assert Acc.LaneOk(s, KeyOf(s.ring[0]));
        TakenNumbers(l, t, step);
      case AgentGivesUp => GivenUpQuiet(s); QuietNumbers(l, t); QuietIp(s, t);
      case SenderActs(action) => SenderQuiet(s, action); QuietNumbers(l, t); QuietIp(s, t);
    }
  }

  lemma QuietIp(s: Acc.System, t: Acc.System)
    requires Quiet(s, t)
    ensures t.agent.serverIp == s.agent.serverIp && t.sender.accepted == s.sender.accepted
  {
    hide MainAhead;
  }

  lemma CapturedIp(s: Acc.System, main: KernelRecord, fragments: seq<KernelRecord>, key: nat)
    ensures Acc.Captured(s, main, fragments, key).agent == s.agent
            && Acc.Captured(s, main, fragments, key).sender == s.sender
  {
  }

  lemma GivenUpQuiet(s: Acc.System)
    ensures Quiet(s, Acc.GivenUp(s))
  {
  }

  lemma SenderQuiet(s: Acc.System, action: Runs.Action)
    requires Sender.Inv(s.sender) && Runs.Possible(s.sender, action) && !action.Start? && !action.SubmitRecord?
    ensures Quiet(s, s.(sender := Runs.Next(s.sender, action)))
  {
    hide Sender.Inv, Acc.Own, Runs.Next, Runs.Possible;
    Runs.NextKeeps(s.sender, action);
    var t := s.(sender := Runs.Next(s.sender, action));
    forall n | n in s.used
      ensures MainAhead(t, n) <==> MainAhead(s, n)
    {
      assert Acc.Lane(t, n) == Acc.Lane(s, n);
    }
  }

  lemma PastGrows(past: multiset<bytes>, check: Check.State, later: Check.State, epoch: nat, more: nat, ip: bytes)
    requires PastOk(past, check, epoch, ip) && check.consumed <= later.consumed && epoch <= more
    ensures PastOk(past, later, more, ip)
  {
    hide ValidRecord, Carries, Acc.SeqOf;
    forall r | r in past
      ensures ConsumedBefore(later, Acc.SeqOf(r), more)
    {
      var e: nat :| e < epoch && (e, Acc.SeqOf(r)) in check.consumed;
      assert (e, Acc.SeqOf(r)) in later.consumed;
    }
  }

  /** What the running process had accepted joins the past; no event is in both. */
  lemma PastJoins(past: multiset<bytes>, accepted: multiset<bytes>, used: set<nat>, check: Check.State, ip: bytes)
    requires Check.NoReuse(check) && PastOk(past, check, check.epoch, ip) && Acc.Marked(accepted, used, ip)
    requires forall r :: r in accepted ==> (check.epoch, Acc.SeqOf(r)) in check.consumed
    ensures PastOk(past + accepted, check, check.epoch + 1, ip)
  {
    hide ValidRecord, Carries, Acc.SeqOf;
    forall r, t | r in past && t in accepted
      ensures Acc.SeqOf(r) != Acc.SeqOf(t) && r != t
    {
      var e: nat :| e < check.epoch && (e, Acc.SeqOf(r)) in check.consumed;
      assert (check.epoch, Acc.SeqOf(t)) in check.consumed;
    }
    PastGrows(past, check, check, check.epoch, check.epoch + 1, ip);
    forall r | r in past + accepted
      ensures ValidRecord(r) && Carries(r, Acc.SeqOf(r), ip) && (past + accepted)[r] == 1
              && ConsumedBefore(check, Acc.SeqOf(r), check.epoch + 1)
    {
    }
  }

  lemma BootKeeps(l: Life, writeOk: bool, setOk: bool, sys: Acc.System, m: Life)
    requires Inv(l) && Does(l, Boot(writeOk, setOk, sys), m) && KeptBy(l, Boot(writeOk, setOk, sys))
    ensures Inv(m)
  {
    hide PastOk, Acc.Inv, Check.Inv;
    Check.NextKeeps(l.check, Check.Start(writeOk, setOk));
    Acc.InitialInv(sys);
    PastGrows(l.past, l.check, Check.Next(l.check, Check.Start(writeOk, setOk)), l.check.epoch + 1, l.check.epoch + 1,
              l.sys.agent.serverIp);
  }

  lemma TakeNumberKeeps(l: Life, m: Life)
    requires Inv(l) && Does(l, TakeNumber, m) && KeptBy(l, TakeNumber)
    ensures Inv(m)
  {
    hide PastOk, Acc.Inv, MainAhead, Acc.SeqOf, Check.NoReuse;
    Check.NextKeeps(l.check, Check.Issue);
    PastGrows(l.past, l.check, Check.Next(l.check, Check.Issue), l.check.epoch, l.check.epoch, l.sys.agent.serverIp);
    assert l.check.cur + 1 !in l.sys.used by {
      assert forall n :: n in l.check.handed ==> n <= l.check.cur;
      assert forall a :: a in l.check.consumed && a.0 == l.check.epoch ==> a.1 <= l.check.cur;
    }
  }

  lemma ActKeeps(l: Life, step: Acc.Step, m: Life)
    requires Inv(l) && Does(l, Act(step), m)
    ensures Inv(m) && l.sys.sender.accepted <= m.sys.sender.accepted
  {
    hide PastOk, Acc.Inv, NumbersOk, Acc.Moves, Check.Inv, Acc.Possible;
    ActNumbers(l, step, m.sys);
    Acc.MovesKeeps(l.sys, step, m.sys);
    if TakesMain(l.sys, step) {
      Check.NextKeeps(l.check, Check.Consume(KeyOf(l.sys.ring[0])));
    }
    PastGrows(l.past, l.check, m.check, l.check.epoch, m.check.epoch, l.sys.agent.serverIp);
    assert m == Life(Noted(l.check, l.sys, step), if step.ProbeCaptures? then l.held - {step.key}
                                                  else l.held, m.sys, l.past);
  }

  lemma PollKeeps(l: Life, step: Step, a: Check.Step, m: Life)
    requires Inv(l) && Does(l, step, m) && KeptBy(l, step)
    requires (step.PollRead? && a == Check.PollRead) || (step.PollWrite? && a == Check.PollWrite(step.writeOk))
    ensures Inv(m)
  {
    hide PastOk, Acc.Inv, MainAhead, Acc.SeqOf, Check.Inv;
    Check.NextKeeps(l.check, a);
    PastGrows(l.past, l.check, Check.Next(l.check, a), l.check.epoch, l.check.epoch, l.sys.agent.serverIp);
  }

  lemma EndKeeps(l: Life, step: Step, a: Check.Step, m: Life)
    requires Inv(l) && Does(l, step, m)
    requires (step.Crash? && a == Check.Crash) || (step.Exit? && a == Check.CleanExit(step.writeOk))
    ensures Inv(m)
  {
    hide PastOk, MainAhead, Acc.SeqOf, Acc.LaneOk, Acc.OnlyFragments, AllSound, Acc.Balanced, Sender.Inv, Acc.Marked;
    hide Check.NoReuse, Acc.Done;
    Check.NextKeeps(l.check, a);
    PastJoins(l.past, l.sys.sender.accepted, l.sys.used, l.check, l.sys.agent.serverIp);
    PastGrows(l.past + l.sys.sender.accepted, l.check, Check.Next(l.check, a), l.check.epoch + 1, l.check.epoch + 1,
              l.sys.agent.serverIp);
  }

  lemma DoesKeeps(l: Life, a: Step, m: Life)
    requires Inv(l) && Does(l, a, m) && KeptBy(l, a)
    ensures Inv(m) && All(l) <= All(m) && m.sys.agent.serverIp == l.sys.agent.serverIp
  {
    hide Inv, Acc.Moves, Acc.Possible, Acc.Initial;
    InvIp(l);
    match a {
      case Boot(writeOk, setOk, sys) => BootKeeps(l, writeOk, setOk, sys, m); NothingYet(sys);
      case TakeNumber => TakeNumberKeeps(l, m);
      case Act(step) => ActKeeps(l, step, m); ActIp(l, step, m);
      case PollRead => PollKeeps(l, a, Check.PollRead, m);
      case PollWrite(ok) => PollKeeps(l, a, Check.PollWrite(ok), m);
      case Crash => EndKeeps(l, a, Check.Crash, m);
      case Exit(ok) => EndKeeps(l, a, Check.CleanExit(ok), m);
    }
  }

  lemma NothingYet(sys: Acc.System)
    requires Acc.Initial(sys)
    ensures sys.sender.accepted == multiset{}
  {
    hide Sender.Inv;
  }

  lemma InvIp(l: Life)
    requires Inv(l)
    ensures |l.sys.agent.serverIp| == MAX_IP_LEN
  {
    hide PastOk, Acc.Inv, NumbersOk, Check.Inv;
  }

  lemma ActIp(l: Life, step: Acc.Step, m: Life)
    requires Inv(l) && Does(l, Act(step), m)
    ensures m.sys.agent.serverIp == l.sys.agent.serverIp && m.check.running
  {
    hide Inv, Acc.Moves, Acc.Possible;
    ActNumbers(l, step, m.sys);
  }

  // Runs.

  ghost predicate Initial(l: Life)
  {
    Check.Initial(l.check) && l.held == {} && l.past == multiset{} && |l.sys.agent.serverIp| == MAX_IP_LEN
  }

  /** A life in which the checkpoint's conditions are kept. */
  ghost predicate IsKeptRun(states: seq<Life>, steps: seq<Step>)
  {
    && |states| == |steps| + 1 && Initial(states[0])
    && forall i :: 0 <= i < |steps| ==> Does(states[i], steps[i], states[i + 1]) && KeptBy(states[i], steps[i])
  }

  lemma {:induction false} InEveryState(states: seq<Life>, steps: seq<Step>, i: nat)
    requires IsKeptRun(states, steps) && i < |states|
    ensures Inv(states[i]) && states[i].sys.agent.serverIp == states[0].sys.agent.serverIp
  {
    hide Does, KeptBy, All;
    if i == 0 {
      hide Acc.Inv;
      Check.InitialInv(states[0].check);
    } else {
      hide Inv, Initial;
      InEveryState(states, steps, i - 1);
      DoesKeeps(states[i - 1], steps[i - 1], states[i]);
    }
  }

  /** What was accepted stays accepted, through crashes and restarts. */
  lemma {:induction false} OnlyGrows(states: seq<Life>, steps: seq<Step>, i: nat, j: nat)
    requires IsKeptRun(states, steps) && i <= j < |states|
    ensures All(states[i]) <= All(states[j])
    decreases j
  {
    hide Does, KeptBy, All, Initial;
    if i < j {
      OnlyGrows(states, steps, i, j - 1);
      InEveryState(states, steps, j - 1);
      DoesKeeps(states[j - 1], steps[j - 1], states[j]);
    }
  }

  /** Each record once, each of another event, all under the agent's address. */
  ghost predicate Once(records: multiset<bytes>, ip: bytes)
  {
    && (forall r :: r in records ==> ValidRecord(r) && Carries(r, Acc.SeqOf(r), ip) && records[r] == 1)
    && (forall r, t :: r in records && t in records && Acc.SeqOf(r) == Acc.SeqOf(t) ==> r == t)
  }

  /** Over the whole life of an agent, crashes and restarts at any moment included, no two records that its senders
    * accepted carry the same event number. */
  lemma NumbersNeverRepeat(states: seq<Life>, steps: seq<Step>, i: nat)
    requires IsKeptRun(states, steps) && i < |states|
    ensures Once(All(states[i]), states[0].sys.agent.serverIp)
  {
    hide ValidRecord, Carries, Acc.SeqOf, Does, KeptBy, Acc.LaneOk, Acc.OnlyFragments, AllSound, Acc.Balanced;
    hide Sender.Inv, Acc.Done;
    hide Acc.Marked, Initial, MainAhead, PastOk;
    InEveryState(states, steps, i);
    var l := states[i];
    if l.check.running {
      PastJoins(l.past, l.sys.sender.accepted, l.sys.used, l.check, l.sys.agent.serverIp);
    }
    PastOnce(All(l), l.check, l.check.epoch + 1, l.sys.agent.serverIp);
  }

  lemma PastOnce(past: multiset<bytes>, check: Check.State, epoch: nat, ip: bytes)
    requires PastOk(past, check, epoch, ip)
    ensures Once(past, ip)
  {
  }
}
