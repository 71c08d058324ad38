/** Probe, kernel ring, agent and sender together: every event that was seen is accounted for. */
module AgentAccounting {
  import opened Bytes
  import opened AuditRecord
  import opened Capture
  import opened Reassembly
  import opened AgentRecords
  import RecordParser
  import Pools = BatchPool
  import Sender = BatchSender
  import Invariant = SenderInvariant
  import Runs = SenderRuns

  /** `used` are the numbers of the main records that entered the ring, in whatever order; `coming` holds the
    * fragments that the probe has still to put there, by event. */
  datatype System = System(
    seen: nat, ringDropped: nat, used: set<nat>, ring: seq<KernelRecord>, coming: map<nat, seq<KernelRecord>>,
    agent: Agent, sender: Sender.Sender, closed: bool)

  function Coming(s: System, key: nat): seq<KernelRecord>
  {
    if key in s.coming then s.coming[key] else []
  }

  /** The records of one event in the ring, in order. */
  function Own(ring: seq<KernelRecord>, key: nat): seq<KernelRecord>
  {
    if ring == [] then []
    else (if KeyOf(ring[0]) == key then [ring[0]] else []) + Own(ring[1..], key)
  }

  function Mains(ring: seq<KernelRecord>): nat
  {
    if ring == [] then 0 else (if ring[0].EventRecord? then 1 else 0) + Mains(ring[1..])
  }

  function Lane(s: System, key: nat): seq<KernelRecord>
  {
    Own(s.ring, key) + Coming(s, key)
  }

  // The steps.

  /** A call whose main record finds no room. */
  function Refuse(s: System): System
  {
    s.(seen := s.seen + 1, ringDropped := s.ringDropped + 1)
  }

  /** The number is fresh; the order in which calls got theirs need not be that of the ring. */
  ghost predicate CanCapture(s: System, main: KernelRecord, fragments: seq<KernelRecord>, key: nat)
  {
    key !in s.used && MainLane([main] + fragments, key)
  }

  /** A call whose main record finds room; its fragments are still to come. */
  function Captured(s: System, main: KernelRecord, fragments: seq<KernelRecord>, key: nat): System
  {
    s.(seen := s.seen + 1, used := s.used + {key}, ring := s.ring + [main], coming := s.coming[key := fragments])
  }

  /** The next fragment of an event goes into the ring, or is lost because the ring is full. */
  function Emitted(s: System, key: nat, room: bool): System
    requires Coming(s, key) != []
  {
    var f := Coming(s, key)[0];
    s.(ring := if room then s.ring + [f] else s.ring, coming := s.coming[key := Coming(s, key)[1..]])
  }

  /** The agent takes the oldest record off the ring; what it submits goes to the sender. */
  ghost function Consumed(s: System, grant: Grant, expired: bool): System
    requires s.ring != [] && AgentOk(s.agent) && RecordOk(s.ring[0]) && GrantOk(s.ring[0], grant)
             && Sender.Inv(s.sender)
  {
    var out := HandleEvent(s.agent, Input(s.ring[0], grant, true)).1;
    if out == [] then s.(ring := s.ring[1..], agent := HandleEvent(s.agent, Input(s.ring[0], grant, true)).0)
    else
      Invariant.SubmitKeeps(s.sender, out[0].record, expired);
      var (sender, ok) := Sender.Submit(s.sender, out[0].record, expired);
      s.(ring := s.ring[1..], agent := HandleEvent(s.agent, Input(s.ring[0], grant, ok)).0, sender := sender)
  }

  /** On exit, events whose tail never came are given up. */
  function GivenUp(s: System): System
  {
    s.(agent := s.agent.(pending := map[], pendingLost := s.agent.pendingLost + |s.agent.pending|), closed := true)
  }

  // The account.

  predicate OnlyFragments(s: System, key: nat)
  {
    forall i :: 0 <= i < |Coming(s, key)| ==> Coming(s, key)[i].FragmentRecord?
  }

  /** Where an event stands fits the records that are still under way: its main record comes while the
    * agent knows nothing of it; later it is pending or lost, or nothing of it is left. */
  ghost predicate LaneOk(s: System, key: nat)
  {
    var lane := Lane(s, key);
    && (if lane != [] && lane[0].EventRecord? then MainLane(lane, key) && Closed(s.agent, key)
        else
          FragmentLane(lane, key)
          && (Waiting(s.agent, key) || Gone(s.agent, key) || (Closed(s.agent, key) && lane == [])))
    && (key !in s.used || key == 0 ==> lane == [] && Closed(s.agent, key))
  }

  /** Main records in the ring are still to be received; every event received is submitted, lost or pending. */
  predicate Balanced(s: System)
  {
    && s.seen == s.ringDropped + Mains(s.ring) + s.agent.received
    && s.agent.received == Settled(s.agent) + |s.sender.accepted|
  }

  /** The event that a record names. */
  function SeqOf(record: bytes): nat
  {
    if HasHeader(record) then Field(record, EVENT_SEQ, 8) else 0
  }

  /** Accepted records are valid, name events that were captured, and carry the agent's address; no event is
    * accepted twice. */
  ghost predicate Marked(accepted: multiset<bytes>, used: set<nat>, ip: bytes)
  {
    && (forall r :: r in accepted ==>
          ValidRecord(r) && Carries(r, SeqOf(r), ip) && SeqOf(r) in used && accepted[r] == 1)
    && (forall r, t :: r in accepted && t in accepted && SeqOf(r) == SeqOf(t) ==> r == t)
  }

  /** Nothing of the event is under way or known to the agent any more. */
  predicate Done(s: System, key: nat)
  {
    Closed(s.agent, key) && Lane(s, key) == []
  }

  ghost predicate Submitted(s: System)
  {
    Marked(s.sender.accepted, s.used, s.agent.serverIp)
    && (!s.closed ==> forall r :: r in s.sender.accepted ==> Done(s, SeqOf(r)))
  }

  ghost predicate Inv(s: System)
  {
    && Sender.Inv(s.sender) && Balanced(s) && Submitted(s)
    && AllSound(s.agent) && (forall key: nat :: OnlyFragments(s, key))
       && (!s.closed ==> forall key: nat :: LaneOk(s, key))
  }

  /** Whatever call the probe handles with room in the ring, its records are such a step: one main record, then
    * the fragments the agent needs, in order, the last one marked as the tail. */
  lemma CallsAreCaptured(s: System, call: AuditCall, e: bytes, q: nat, sqlSeq: nat, paramsSeq: nat, n: nat)
    requires call.Readable() && MainImage(e, call, q, n) && (LongParams(call) ==> paramsSeq > 0) && q > 0
             && q !in s.used
    ensures CanCapture(s, EventRecord(e), Fragments(call, q, sqlSeq, paramsSeq), q)
    ensures var fs := Fragments(call, q, sqlSeq, paramsSeq); fs != [] ==> IsTail(fs[|fs| - 1])
  {
    hide MainImage, Fragments, MainLane;
    CaptureIsLane(call, e, q, sqlSeq, paramsSeq, n);
  }

  // What each step keeps.

  lemma {:induction false} OwnAppend(ring: seq<KernelRecord>, r: KernelRecord, key: nat)
    ensures Own(ring + [r], key) == Own(ring, key) + (if KeyOf(r) == key then [r] else [])
    ensures Mains(ring + [r]) == Mains(ring) + (if r.EventRecord? then 1 else 0)
  {
    hide KeyOf, Own, Mains;
    if ring == [] {
      OwnHead([r], key);
      assert ring + [r] == [r] && [r][1..] == [];
      OwnNone(key);
    } else {
      var all, rest := ring + [r], ring[1..];
      assert all[0] == ring[0] && all[1..] == rest + [r];
      OwnAppend(rest, r, key);
      OwnHead(ring, key);
      OwnHead(all, key);
    }
  }

  lemma OwnNone(key: nat)
    ensures Own([], key) == [] && Mains([]) == 0
  {
  }

  lemma OwnHead(ring: seq<KernelRecord>, key: nat)
    requires ring != []
    ensures Own(ring, key) == (if KeyOf(ring[0]) == key then [ring[0]] else []) + Own(ring[1..], key)
    ensures Mains(ring) == (if ring[0].EventRecord? then 1 else 0) + Mains(ring[1..])
  {
  }

  /** An event that is done stays done while nothing of its own happens. */
  lemma DoneStays(s: System, t: System, key: nat)
    requires Done(s, key) && Lane(t, key) == Lane(s, key) && SameLane(t.agent, s.agent, key)
    ensures Done(t, key)
  {
    hide Lane;
  }

  lemma MarkedGrows(accepted: multiset<bytes>, used: set<nat>, more: set<nat>, ip: bytes)
    requires Marked(accepted, used, ip) && used <= more
    ensures Marked(accepted, more, ip)
  {
    hide ValidRecord, Carries, SeqOf;
  }

  lemma MarkedOne(accepted: multiset<bytes>, used: set<nat>, ip: bytes, record: bytes)
    requires Marked(accepted, used, ip) && ValidRecord(record) && Carries(record, SeqOf(record), ip)
             && SeqOf(record) in used
    requires forall r :: r in accepted ==> SeqOf(r) != SeqOf(record)
    ensures Marked(accepted + multiset{record}, used, ip)
  {
    hide ValidRecord, Carries, SeqOf;
    assert record !in accepted;
  }

  lemma CarriesSeq(record: bytes, key: nat, ip: bytes)
    requires Carries(record, key, ip)
    ensures SeqOf(record) == key
  {
  }

  lemma CapturedSubmitted(s: System, main: KernelRecord, fragments: seq<KernelRecord>, key: nat)
    requires Submitted(s) && CanCapture(s, main, fragments, key)
    ensures Submitted(Captured(s, main, fragments, key))
  {
    hide Marked, SeqOf, Own, MainLane, Done;
    var t := Captured(s, main, fragments, key);
    MarkedGrows(s.sender.accepted, s.used, t.used, s.agent.serverIp);
    MainFirst(main, fragments, key);
    forall r | r in s.sender.accepted && !s.closed
      ensures Done(t, SeqOf(r))
    {
      MarkedUsed(s.sender.accepted, s.used, s.agent.serverIp, r);
      OwnAppend(s.ring, main, SeqOf(r));
      DoneStays(s, t, SeqOf(r));
    }
  }

  lemma MarkedUsed(accepted: multiset<bytes>, used: set<nat>, ip: bytes, r: bytes)
    requires Marked(accepted, used, ip) && r in accepted
    ensures SeqOf(r) in used
  {
  }

  lemma EmittedSubmitted(s: System, key: nat, room: bool)
    requires Submitted(s) && Coming(s, key) != [] && KeyOf(Coming(s, key)[0]) == key
    ensures Submitted(Emitted(s, key, room))
  {
    hide Marked, SeqOf, Own, KeyOf;
    var t := Emitted(s, key, room);
    forall r | r in s.sender.accepted && !s.closed
      ensures Done(t, SeqOf(r))
    {
      assert Done(s, SeqOf(r));
      assert SeqOf(r) != key;
      OwnAppend(s.ring, Coming(s, key)[0], SeqOf(r));
      DoneStays(s, t, SeqOf(r));
    }
  }

  /** What a record submits is the first submission of its event. */
  lemma HandledSubmitted(s: System, i: Input, sender: Sender.Sender, key: nat, rest: seq<KernelRecord>)
    requires Submitted(s) && !s.closed && s.ring != [] && i.record == s.ring[0] && AgentOk(s.agent) && InputOk(i)
    requires key == KeyOf(s.ring[0]) && rest == Own(s.ring[1..], key) + Coming(s, key) && key in s.used
    requires var (b, out) := HandleEvent(s.agent, i);
             && b.serverIp == s.agent.serverIp
             && (out != [] ==> ValidRecord(out[0].record) && Carries(out[0].record, key, s.agent.serverIp)
                               && Closed(b, key) && rest == [])
             && sender.accepted == s.sender.accepted + if out != [] && i.accepted then multiset{out[0].record}
                                                       else multiset{}
    ensures Submitted(s.(ring := s.ring[1..], agent := HandleEvent(s.agent, i).0, sender := sender))
  {
    hide Marked, SeqOf, Own, KeyOf, HandleEvent, AgentOk, InputOk, ValidRecord, Carries, Coming;
    var t := s.(ring := s.ring[1..], agent := HandleEvent(s.agent, i).0, sender := sender);
    var out := HandleEvent(s.agent, i).1;
    var _ := HeadOfLane(s);
    forall r | r in s.sender.accepted
      ensures SeqOf(r) != key && Done(t, SeqOf(r))
    {
      assert Done(s, SeqOf(r));
      OwnOfRest(s.ring, SeqOf(r));
      OtherEvent(s.agent, i, SeqOf(r));
      SameComing(s, t, SeqOf(r));
      DoneStays(s, t, SeqOf(r));
    }
    if out != [] && i.accepted {
      CarriesSeq(out[0].record, key, s.agent.serverIp);
      MarkedOne(s.sender.accepted, s.used, s.agent.serverIp, out[0].record);
      SameComing(s, t, key);
      assert Done(t, key);
      OneMore(s.sender.accepted, out[0].record);
    } else {
      assert sender.accepted == s.sender.accepted;
    }
  }

  lemma RefuseKeeps(s: System)
    requires Inv(s)
    ensures Inv(Refuse(s))
  {
    hide LaneOk, AllSound, OnlyFragments, Own, Submitted;
    SameLanes(s, Refuse(s));
    SameSubmitted(s, Refuse(s));
  }

  lemma SameSubmitted(s: System, t: System)
    requires Submitted(s) && t.sender.accepted == s.sender.accepted && t.used == s.used && t.agent == s.agent
    requires t.ring == s.ring && t.coming == s.coming && t.closed == s.closed
    ensures Submitted(t)
  {
    hide Marked, SeqOf, Own;
    forall r | r in s.sender.accepted && !s.closed
      ensures Done(t, SeqOf(r))
    {
      DoneStays(s, t, SeqOf(r));
    }
  }

  lemma SameLanes(s: System, t: System)
    requires (forall key: nat :: OnlyFragments(s, key)) && (!s.closed ==> forall key: nat :: LaneOk(s, key))
    requires t.ring == s.ring && t.coming == s.coming && t.used == s.used && t.agent == s.agent && t.closed == s.closed
    ensures (forall key: nat :: OnlyFragments(t, key)) && (!t.closed ==> forall key: nat :: LaneOk(t, key))
  {
    hide LaneOk, OnlyFragments, Own;
    forall key: nat
      ensures OnlyFragments(t, key) && (!t.closed ==> LaneOk(t, key))
    {
      assert OnlyFragments(s, key);
      SameFragments(s, t, key);
      if !s.closed {
        SameLaneOk(s, t, key);
      }
    }
  }

  lemma SameFragments(s: System, t: System, key: nat)
    requires OnlyFragments(s, key)
             && (Coming(t, key) == Coming(s, key) || (Coming(s, key) != [] && Coming(t, key) == Coming(s, key)[1..]))
    ensures OnlyFragments(t, key)
  {
  }

  /** A lane depends on its records and on the agent's view of its event. */
  lemma SameLaneOk(s: System, t: System, key: nat)
    requires LaneOk(s, key) && Lane(t, key) == Lane(s, key) && s.used <= t.used
    requires SameLane(t.agent, s.agent, key)
    ensures LaneOk(t, key)
  {
    hide MainLane, FragmentLane, Lane, Coming;
  }

  lemma CapturedKeeps(s: System, main: KernelRecord, fragments: seq<KernelRecord>, key: nat)
    requires Inv(s) && CanCapture(s, main, fragments, key)
    ensures Inv(Captured(s, main, fragments, key))
  {
    hide AllSound, LaneOk, MainLane, Sender.Inv, Own, OnlyFragments, Submitted;
    CapturedSubmitted(s, main, fragments, key);
    var t := Captured(s, main, fragments, key);
    OwnAppend(s.ring, main, key);
    MainFirst(main, fragments, key);
    forall k: nat
      ensures OnlyFragments(t, k) && (!t.closed ==> LaneOk(t, k))
    {
      OwnAppend(s.ring, main, k);
      assert OnlyFragments(s, k);
      if k == key {
        NewFragments(t, fragments, key);
        if !s.closed {
          NewLane(s, main, fragments, key);
        }
      } else {
        SameFragments(s, t, k);
        if !s.closed {
          SameLaneOk(s, t, k);
        }
      }
    }
  }

  lemma NewFragments(t: System, fragments: seq<KernelRecord>, key: nat)
    requires FragmentLane(fragments, key) && Coming(t, key) == fragments
    ensures OnlyFragments(t, key)
  {
  }

  lemma MainFirst(main: KernelRecord, fragments: seq<KernelRecord>, key: nat)
    requires MainLane([main] + fragments, key)
    ensures main.EventRecord? && KeyOf(main) == key && key > 0
    ensures FragmentLane(fragments, key)
  {
    assert ([main] + fragments)[1..] == fragments;
  }

  lemma NewLane(s: System, main: KernelRecord, fragments: seq<KernelRecord>, key: nat)
    requires LaneOk(s, key) && CanCapture(s, main, fragments, key)
    ensures LaneOk(Captured(s, main, fragments, key), key)
  {
    hide MainLane, Own;
    MainFirst(main, fragments, key);
    OwnAppend(s.ring, main, key);
    var t := Captured(s, main, fragments, key);
    assert Own(s.ring, key) == [];
    assert Lane(t, key) == [main] + fragments;
  }

  lemma SubmittedClosed(s: System, t: System)
    requires Submitted(s) && t.sender.accepted == s.sender.accepted && t.used == s.used
             && t.agent.serverIp == s.agent.serverIp && t.closed
    ensures Submitted(t)
  {
    hide Marked;
  }

  lemma EmittedKeeps(s: System, key: nat, room: bool)
    requires Inv(s) && Coming(s, key) != []
    ensures Inv(Emitted(s, key, room))
    ensures var t, f := Emitted(s, key, room), Coming(s, key)[0];
            t.ring == (if room then s.ring + [f] else s.ring) && Coming(s, key) == [f] + Coming(t, key)
  {
    hide AllSound, LaneOk, Sender.Inv, Own, OnlyFragments, Submitted;
    var t, f := Emitted(s, key, room), Coming(s, key)[0];
    assert OnlyFragments(s, key);
    FirstIsFragment(s, key);
    if s.closed {
      SubmittedClosed(s, t);
    } else {
      assert LaneOk(s, key);
      ComingFragment(s, key);
      EmittedSubmitted(s, key, room);
    }
    OwnAppend(s.ring, f, key);
    forall k: nat
      ensures OnlyFragments(t, k) && (!t.closed ==> LaneOk(t, k))
    {
      OwnAppend(s.ring, f, k);
      assert OnlyFragments(s, k);
      SameFragments(s, t, k);
      if !s.closed {
        assert LaneOk(s, key);
        ComingFragment(s, key);
        if k == key {
          EmittedLane(s, key, room);
        } else {
          SameLaneOk(s, t, k);
        }
      }
    }
  }

  lemma FirstIsFragment(s: System, key: nat)
    requires OnlyFragments(s, key) && Coming(s, key) != []
    ensures Coming(s, key)[0].FragmentRecord?
  {
  }

  lemma ComingFragment(s: System, key: nat)
    requires LaneOk(s, key) && OnlyFragments(s, key) && Coming(s, key) != []
    ensures Coming(s, key)[0].FragmentRecord? && KeyOf(Coming(s, key)[0]) == key
  {
    hide Own;
    var f := Coming(s, key)[0];
    var at := |Own(s.ring, key)|;
    assert Lane(s, key)[at] == f;
    if at > 0 && Lane(s, key)[0].EventRecord? {
      assert Lane(s, key)[1..][at - 1] == f;
    }
  }

  lemma EmittedLane(s: System, key: nat, room: bool)
    requires LaneOk(s, key) && OnlyFragments(s, key) && Coming(s, key) != []
    ensures LaneOk(Emitted(s, key, room), key)
  {
    hide Own, WellMain, WellFragment, Fragmented, IsTail;
    ComingFragment(s, key);
    var t, f, had := Emitted(s, key, room), Coming(s, key)[0], Own(s.ring, key);
    OwnAppend(s.ring, f, key);
    assert Coming(s, key) == [f] + Coming(t, key);
    if room {
      assert had + ([f] + Coming(t, key)) == (had + [f]) + Coming(t, key);
      assert Lane(t, key) == Lane(s, key);
    } else {
      DropOne(s, had, f, Coming(t, key), key);
    }
  }

  /** A lane stays a lane when one of its fragments is lost. */
  lemma DropOne(s: System, had: seq<KernelRecord>, f: KernelRecord, rest: seq<KernelRecord>, key: nat)
    requires f.FragmentRecord?
    ensures FragmentLane(had + ([f] + rest), key) ==> FragmentLane(had + rest, key)
    ensures had != [] && MainLane(had + ([f] + rest), key) ==> MainLane(had + rest, key)
  {
    hide WellMain, WellFragment, Fragmented, IsTail;
    var full, less := had + ([f] + rest), had + rest;
    DropFragment(had, f, rest, key);
    if had != [] {
      DropFragment(had[1..], f, rest, key);
      assert full[1..] == had[1..] + ([f] + rest);
      assert less[1..] == had[1..] + rest;
    }
  }

  lemma DropFragment(had: seq<KernelRecord>, f: KernelRecord, rest: seq<KernelRecord>, key: nat)
    ensures FragmentLane(had + ([f] + rest), key) ==> FragmentLane(had + rest, key)
  {
    hide WellFragment, IsTail;
    var full, less := had + ([f] + rest), had + rest;
    if FragmentLane(full, key) {
      forall i | 0 <= i < |less|
        ensures WellFragment(less[i], key) && (IsTail(less[i]) ==> i == |less| - 1)
      {
        var j := if i < |had| then i else i + 1;
        assert full[j] == less[i];
      }
    }
  }

  // Consuming.

  /** The record at the head of the ring heads its event's lane. */
  lemma HeadOfLane(s: System) returns (key: nat)
    requires s.ring != []
    ensures key == KeyOf(s.ring[0]) && Lane(s, key) == [s.ring[0]] + (Own(s.ring[1..], key) + Coming(s, key))
  {
    hide KeyOf;
    key := KeyOf(s.ring[0]);
    var rest := Own(s.ring[1..], key);
    assert Own(s.ring, key) == [s.ring[0]] + rest;
    assert ([s.ring[0]] + rest) + Coming(s, key) == [s.ring[0]] + (rest + Coming(s, key));
  }

  /** So it is a main record of an event the agent does not know, or a fragment of one that is pending or lost. */
  lemma HeadKind(s: System) returns (key: nat, rest: seq<KernelRecord>)
    requires s.ring != [] && LaneOk(s, KeyOf(s.ring[0]))
    ensures key == KeyOf(s.ring[0]) && rest == Own(s.ring[1..], key) + Coming(s, key) && key > 0 && key in s.used
    ensures FragmentLane(rest, key) && RecordOk(s.ring[0])
    ensures if s.ring[0].EventRecord? then
              WellMain(s.ring[0], key) && Closed(s.agent, key) && (rest != [] ==> Fragmented(s.ring[0].mem))
            else
              && WellFragment(s.ring[0], key) && (Waiting(s.agent, key) || Gone(s.agent, key))
              && (IsTail(s.ring[0]) ==> rest == [])
  {
    hide WellMain, WellFragment, IsTail, Fragmented, KeyOf, Own;
    key := HeadOfLane(s);
    rest := Own(s.ring[1..], key) + Coming(s, key);
    var lane := Lane(s, key);
    assert lane[1..] == rest && lane[0] == s.ring[0];
    if s.ring[0].EventRecord? {
      WellMainRecord(s.ring[0], key);
    } else {
      WellFragmentRecord(s.ring[0], key);
      TailLane(s.ring[0], rest, key);
    }
  }

  lemma WellMainRecord(r: KernelRecord, key: nat)
    requires WellMain(r, key)
    ensures RecordOk(r) && HasHeader(r.mem)
  {
    WellReceived(r, key);
  }

  lemma WellFragmentRecord(r: KernelRecord, key: nat)
    requires WellFragment(r, key)
    ensures RecordOk(r)
  {
  }

  lemma TailLane(f: KernelRecord, rest: seq<KernelRecord>, key: nat)
    requires FragmentLane([f] + rest, key)
    ensures FragmentLane(rest, key) && (IsTail(f) ==> rest == [])
  {
    hide WellFragment, IsTail;
    var full := [f] + rest;
    assert full[0] == f;
    forall i | 0 <= i < |rest|
      ensures WellFragment(rest[i], key) && (IsTail(rest[i]) ==> i == |rest| - 1)
    {
      assert full[i + 1] == rest[i];
    }
  }

  /** The effect of the head record on the account, whatever the sender answers. */
  lemma HeadSettles(s: System, grant: Grant, ok: bool) returns (key: nat, rest: seq<KernelRecord>)
    requires AllSound(s.agent) && s.ring != [] && LaneOk(s, KeyOf(s.ring[0])) && RecordOk(s.ring[0])
             && GrantOk(s.ring[0], grant)
    ensures key == KeyOf(s.ring[0]) && rest == Own(s.ring[1..], key) + Coming(s, key) && key > 0 && key in s.used
    ensures FragmentLane(rest, key)
    ensures var (b, out) := HandleEvent(s.agent, Input(s.ring[0], grant, ok));
            && AllSound(b) && b.received == s.agent.received + (if s.ring[0].EventRecord? then 1 else 0) && |out| <= 1
            && b.received - Settled(b) == s.agent.received - Settled(s.agent) + (if out != [] && ok then 1 else 0)
            && b.serverIp == s.agent.serverIp
            && (out != [] ==> ValidRecord(out[0].record) && Carries(out[0].record, key, s.agent.serverIp)
                              && Closed(b, key))
            && (Waiting(b, key) || Gone(b, key) || (Closed(b, key) && rest == []))
  {
    hide WellMain, WellFragment, IsTail, Fragmented, KeyOf, Own, HandleEvent, AllSound, GrantOk, ValidRecord;
    hide FragmentLane;
    key, rest := HeadKind(s);
    AllSoundOk(s.agent);
    var i := Input(s.ring[0], grant, ok);
    if s.ring[0].EventRecord? {
      MainSettles(s.agent, i, key);
    } else {
      FragmentSettles(s.agent, i, key);
    }
  }

  lemma AllSoundOk(a: Agent)
    requires AllSound(a)
    ensures AgentOk(a)
  {
  }

  /** The head record handled, and what it submits taken in by the sender or not. */
  lemma HandledKeeps(s: System, i: Input, sender: Sender.Sender)
    requires Inv(s) && !s.closed && s.ring != [] && AgentOk(s.agent) && i.record == s.ring[0] && InputOk(i)
             && Sender.Inv(sender)
    requires var out := HandleEvent(s.agent, i).1;
             sender.accepted == s.sender.accepted + if out != [] && i.accepted then multiset{out[0].record}
                                                    else multiset{}
    ensures Inv(s.(ring := s.ring[1..], agent := HandleEvent(s.agent, i).0, sender := sender))
  {
    hide LaneOk, AllSound, AgentOk, RecordOk, GrantOk, HandleEvent, Sender.Inv, Own, OnlyFragments, ValidRecord;
    hide Settled, KeyOf;
    hide Submitted, Carries;
    assert LaneOk(s, KeyOf(s.ring[0]));
    var key, rest := HeadSettles(s, i.grant, i.accepted);
    assert i == Input(s.ring[0], i.grant, i.accepted);
    ClosedAlone(HandleEvent(s.agent, i).0, key);
    HandledSubmitted(s, i, sender, key, rest);
    ConsumedLanes(s, i, rest, sender);
    var out := HandleEvent(s.agent, i).1;
    if out != [] && i.accepted {
      OneMore(s.sender.accepted, out[0].record);
    }
  }

  lemma ConsumedKeeps(s: System, grant: Grant, expired: bool)
    requires Inv(s) && !s.closed && s.ring != [] && AgentOk(s.agent) && RecordOk(s.ring[0]) && GrantOk(s.ring[0], grant)
    ensures Inv(Consumed(s, grant, expired))
  {
    hide LaneOk, AllSound, AgentOk, RecordOk, GrantOk, HandleEvent, Sender.Inv, Own, OnlyFragments, ValidRecord;
    hide Sender.Submit, Balanced, Submitted;
    OutSame(s.agent, s.ring[0], grant);
    var out := HandleEvent(s.agent, Input(s.ring[0], grant, true)).1;
    if out == [] {
      HandledKeeps(s, Input(s.ring[0], grant, true), s.sender);
    } else {
      Invariant.SubmitKeeps(s.sender, out[0].record, expired);
      var (sender, ok) := Sender.Submit(s.sender, out[0].record, expired);
      HandledKeeps(s, Input(s.ring[0], grant, ok), sender);
    }
  }

  lemma ClosedAlone(a: Agent, key: nat)
    ensures Closed(a, key) ==> !Waiting(a, key) && !Gone(a, key)
  {
  }

  lemma OneMore(accepted: multiset<bytes>, record: bytes)
    ensures |accepted + multiset{record}| == |accepted| + 1
    ensures forall r :: r in accepted + multiset{record} ==> r in accepted || r == record
  {
  }

  /** What a record makes the agent submit does not depend on whether the sender will take it. */
  lemma OutSame(a: Agent, r: KernelRecord, grant: Grant)
    requires AgentOk(a) && RecordOk(r) && GrantOk(r, grant)
    ensures HandleEvent(a, Input(r, grant, true)).1 == HandleEvent(a, Input(r, grant, false)).1
  {
    hide VerdictOf, KeyOf, Received;
  }

  lemma ConsumedLanes(s: System, i: Input, rest: seq<KernelRecord>, sender: Sender.Sender)
    requires s.ring != [] && i.record == s.ring[0] && AgentOk(s.agent) && InputOk(i)
    requires (forall k: nat :: OnlyFragments(s, k)) && forall k: nat :: LaneOk(s, k)
    requires var key, b := KeyOf(i.record), HandleEvent(s.agent, i).0;
             && rest == Own(s.ring[1..], key) + Coming(s, key) && FragmentLane(rest, key) && key > 0 && key in s.used
             && (Waiting(b, key) || Gone(b, key) || (Closed(b, key) && rest == []))
    ensures var t := s.(ring := s.ring[1..], agent := HandleEvent(s.agent, i).0, sender := sender);
            forall k: nat :: OnlyFragments(t, k) && LaneOk(t, k)
  {
    hide LaneOk, AgentOk, HandleEvent, Own, OnlyFragments, InputOk, FragmentLane, KeyOf;
    var key := KeyOf(i.record);
    var t := s.(ring := s.ring[1..], agent := HandleEvent(s.agent, i).0, sender := sender);
    forall k: nat
      ensures OnlyFragments(t, k) && LaneOk(t, k)
    {
      assert OnlyFragments(s, k) && LaneOk(s, k);
      SameFragments(s, t, k);
      if k == key {
        FragmentsAhead(t, key);
      } else {
        OwnOfRest(s.ring, k);
        OtherEvent(s.agent, i, k);
        SameLaneOk(s, t, k);
      }
    }
  }

  lemma OwnOfRest(ring: seq<KernelRecord>, k: nat)
    requires ring != [] && KeyOf(ring[0]) != k
    ensures Own(ring[1..], k) == Own(ring, k)
  {
    hide KeyOf;
  }

  lemma FragmentsAhead(t: System, key: nat)
    requires FragmentLane(Lane(t, key), key) && key > 0 && key in t.used
    requires Waiting(t.agent, key) || Gone(t.agent, key) || (Closed(t.agent, key) && Lane(t, key) == [])
    ensures LaneOk(t, key)
  {
    hide Lane;
  }

  lemma GivenUpKeeps(s: System)
    requires Inv(s)
    ensures Inv(GivenUp(s)) && GivenUp(s).agent.pending == map[] && GivenUp(s).closed
    ensures GivenUp(s).agent.pendingLost == s.agent.pendingLost + |s.agent.pending|
  {
    hide Sender.Inv, Own, LaneOk, OnlyFragments, Coming, ValidRecord, AllSound, Settled, Mains, Submitted;
    GivenUpAgent(s.agent);
    SubmittedClosed(s, GivenUp(s));
    forall key: nat
      ensures OnlyFragments(GivenUp(s), key)
    {
      assert OnlyFragments(s, key);
      SameComing(s, GivenUp(s), key);
      SameFragments(s, GivenUp(s), key);
    }
  }

  lemma GivenUpAgent(a: Agent)
    requires AllSound(a)
    ensures var b := a.(pending := map[], pendingLost := a.pendingLost + |a.pending|);
            AllSound(b) && Settled(b) == Settled(a)
  {
  }

  lemma SameComing(s: System, t: System, key: nat)
    requires t.coming == s.coming
    ensures Coming(t, key) == Coming(s, key)
  {
  }

  /** A step of the sender on its own, as in `SenderRuns`, other than a submission or a restart. */
  lemma SenderKeeps(s: System, a: Runs.Action)
    requires Inv(s) && Runs.Possible(s.sender, a) && !a.Start? && !a.SubmitRecord?
    ensures Inv(s.(sender := Runs.Next(s.sender, a)))
  {
    hide Sender.Inv, Own, LaneOk, OnlyFragments, AllSound, Runs.Next, Runs.Possible, Submitted;
    Runs.NextKeeps(s.sender, a);
    SameSubmitted(s, s.(sender := Runs.Next(s.sender, a)));
    SameLanes(s, s.(sender := Runs.Next(s.sender, a)));
  }

  // Runs.

  datatype Step =
    | ProbeDrops
    | ProbeCaptures(main: KernelRecord, fragments: seq<KernelRecord>, key: nat)
    | ProbeEmits(of: nat, room: bool)
    | AgentConsumes(grant: Grant, expired: bool)
    | AgentGivesUp
    | SenderActs(action: Runs.Action)

  ghost predicate Possible(s: System, step: Step)
  {
    match step
    case ProbeDrops => true
    case ProbeCaptures(main, fragments, key) => CanCapture(s, main, fragments, key)
    case ProbeEmits(of, _) => Coming(s, of) != []
    case AgentConsumes(grant, _) => !s.closed && s.ring != [] && GrantOk(s.ring[0], grant)
    case AgentGivesUp => true
    case SenderActs(action) => Runs.Possible(s.sender, action) && !action.Start? && !action.SubmitRecord?
  }

  /** What the invariant has to provide for the next step to be defined. */
  ghost predicate Ready(s: System)
  {
    Sender.Inv(s.sender) && AgentOk(s.agent) && (!s.closed && s.ring != [] ==> RecordOk(s.ring[0]))
  }

  ghost function Next(s: System, step: Step): System
    requires Possible(s, step) && Ready(s)
  {
    hide Sender.Inv, AgentOk, RecordOk, GrantOk, CanCapture;
    match step
    case ProbeDrops => Refuse(s)
    case ProbeCaptures(main, fragments, key) => Captured(s, main, fragments, key)
    case ProbeEmits(of, room) => Emitted(s, of, room)
    case AgentConsumes(grant, expired) => Consumed(s, grant, expired)
    case AgentGivesUp => GivenUp(s)
    case SenderActs(action) => s.(sender := Runs.Next(s.sender, action))
  }

  ghost predicate Moves(s: System, step: Step, t: System)
  {
    Possible(s, step) && (Ready(s) ==> t == Next(s, step))
  }

  lemma MovesKeeps(s: System, step: Step, t: System)
    requires Inv(s) && Moves(s, step, t)
    ensures Inv(t)
  {
    hide Inv, Captured, Emitted, Consumed, GivenUp, Refuse, CanCapture, Coming, GrantOk, RecordOk, Ready;
    IsReady(s);
    match step {
      case ProbeDrops => RefuseKeeps(s);
      case ProbeCaptures(main, fragments, key) => CapturedKeeps(s, main, fragments, key);
      case ProbeEmits(of, room) => EmittedKeeps(s, of, room);
      case AgentConsumes(grant, expired) =>
        ReadyMeans(s);
        ConsumedKeeps(s, grant, expired);
      case AgentGivesUp => GivenUpKeeps(s);
      case SenderActs(action) => SenderKeeps(s, action);
    }
  }

  lemma IsReady(s: System)
    requires Inv(s)
    ensures Ready(s)
  {
    hide LaneOk, RecordOk, KeyOf, Sender.Inv, OnlyFragments, Submitted;
    if !s.closed && s.ring != [] {
      assert LaneOk(s, KeyOf(s.ring[0]));
      var key, rest := HeadKind(s);
    }
  }

  lemma ReadyMeans(s: System)
    requires Ready(s)
    ensures AgentOk(s.agent) && (!s.closed && s.ring != [] ==> RecordOk(s.ring[0]))
  {
  }

  ghost predicate Initial(s: System)
  {
    && s.seen == s.ringDropped == 0 && s.used == {} && s.ring == [] && s.coming == map[] && !s.closed
    && |s.agent.serverIp| == MAX_IP_LEN && s.agent == Agent(map[], {}, s.agent.serverIp, 0, 0, 0)
    && Sender.Inv(s.sender) && s.sender.accepted == multiset{}
  }

  lemma InitialInv(s: System)
    requires Initial(s)
    ensures Inv(s)
  {
    hide Sender.Inv;
  }

  /** There is such a state: a started sender, an agent with an address, nothing seen. */
  lemma BeforeAnything(count: nat, batchBytes: nat, concurrency: nat, maxRetries: nat, ip: bytes) returns (s: System)
    requires concurrency > 0 && |ip| == MAX_IP_LEN
    ensures Initial(s) && s.sender.started && s.agent.serverIp == ip
  {
    hide Sender.Inv;
    Runs.NewSenderInv(count, batchBytes, concurrency, maxRetries);
    s := System(0, 0, {}, [], map[], Agent(map[], {}, ip, 0, 0, 0),
                Sender.NewSender(Pools.FreshPool(count), batchBytes, concurrency, maxRetries), false);
  }

  ghost predicate IsRun(states: seq<System>, steps: seq<Step>)
  {
    && |states| == |steps| + 1 && Initial(states[0])
    && forall i :: 0 <= i < |steps| ==> Moves(states[i], steps[i], states[i + 1])
  }

  lemma {:induction false} InEveryState(states: seq<System>, steps: seq<Step>, i: nat)
    requires IsRun(states, steps) && i < |states|
    ensures Inv(states[i])
  {
    hide Inv, Moves, Initial;
    if i == 0 {
      InitialInv(states[0]);
    } else {
      InEveryState(states, steps, i - 1);
      MovesKeeps(states[i - 1], steps[i - 1], states[i]);
    }
  }

  /** No event is accepted by the sender twice, in any state of any run: accepted records that name the same event
    * are one record, accepted once. */
  lemma SubmittedOnce(states: seq<System>, steps: seq<Step>, i: nat)
    requires IsRun(states, steps) && i < |states|
    ensures Marked(states[i].sender.accepted, states[i].used, states[i].agent.serverIp)
  {
    hide LaneOk, OnlyFragments, AllSound, Sender.Inv, Marked, Balanced, Done;
    InEveryState(states, steps, i);
  }

  // What the agent reports.

  datatype Snapshot = Snapshot(
    seenRecords: nat, ringbufLost: nat, agentReceived: nat, pendingLost: nat, sendEnqueueLost: nat,
    uploadRetryExhausted: nat, agentLost: nat, senderAccepted: nat, acknowledged: nat,
    pendingInflight: nat, senderInflight: int, inflight: int)

  /** The report. Its counters are read one after another: the kernel's, the sender's, then each of the writer's. */
  function Report(kernel: System, sender: System, received: System, pendingLost: System, enqueueLost: System,
                  pending: System): Snapshot
  {
    var exhausted := |sender.sender.dropped|;
    var senderInflight := |sender.sender.accepted| - |sender.sender.acknowledged| - exhausted;
    Snapshot(kernel.seen, kernel.ringDropped, received.agent.received, pendingLost.agent.pendingLost,
             enqueueLost.agent.enqueueLost,
             exhausted, kernel.ringDropped + pendingLost.agent.pendingLost + enqueueLost.agent.enqueueLost + exhausted,
             |sender.sender.accepted|, |sender.sender.acknowledged|, |pending.agent.pending|, senderInflight,
             |pending.agent.pending| + senderInflight)
  }

  /** The report if nothing happens in between. */
  function MakeSnapshot(s: System): Snapshot
  {
    Report(s, s, s, s, s, s)
  }

  /** In every state of every run the reported numbers add up: every event seen is lost, acknowledged, in
    * flight, or a main record that is still in the kernel ring. What the sender reports as in flight is what
    * is in its open and ready batches and in uploads whose outcome is still open. */
  lemma SnapshotBalances(states: seq<System>, steps: seq<Step>, i: nat)
    requires IsRun(states, steps) && i < |states|
    ensures var s, m := states[i], MakeSnapshot(states[i]);
            && m.seenRecords == s.seen && m.ringbufLost == s.ringDropped && m.agentReceived == s.agent.received
            && m.pendingLost == s.agent.pendingLost && m.sendEnqueueLost == s.agent.enqueueLost
            && m.uploadRetryExhausted == |s.sender.dropped| && m.acknowledged == |s.sender.acknowledged|
            && m.senderAccepted == |s.sender.accepted| && m.pendingInflight == |s.agent.pending|
            && m.seenRecords == m.agentLost + m.acknowledged + m.inflight + Mains(s.ring)
            && m.seenRecords == m.ringbufLost + m.agentReceived + Mains(s.ring)
            && m.agentReceived == m.pendingLost + m.sendEnqueueLost + m.senderAccepted + m.pendingInflight
            && m.senderInflight
                 == s.sender.queuedRecords + |Sender.RecordsHeld(s.sender.pool.batches, s.sender.workers, true)|
            && 0 <= m.senderInflight <= s.sender.queuedRecords + s.sender.activeRecords && 0 <= m.inflight
  {
    hide LaneOk, OnlyFragments, AllSound, Sender.RecordsHeld, Sender.RecordsIn, Sender.BytesIn, Sender.Owned;
    hide Sender.Filled, Mains, Submitted;
    InEveryState(states, steps, i);
    Runs.OpenIsHeld(states[i].sender.pool.batches, states[i].sender.workers);
  }

  /** Counters only grow. */
  predicate Later(s: System, t: System)
  {
    && s.agent.received <= t.agent.received && s.agent.pendingLost <= t.agent.pendingLost
    && s.agent.enqueueLost <= t.agent.enqueueLost && |s.sender.accepted| <= |t.sender.accepted|
  }

  lemma HandledReceived(a: Agent, i: Input)
    requires AgentOk(a) && InputOk(i)
    ensures var b := HandleEvent(a, i).0;
            a.received <= b.received && a.pendingLost <= b.pendingLost && a.enqueueLost <= b.enqueueLost
  {
    hide VerdictOf, AgentOk, InputOk, KeyOf, Received;
  }

  lemma ConsumedGrows(s: System, grant: Grant, expired: bool)
    requires s.ring != [] && AgentOk(s.agent) && RecordOk(s.ring[0]) && GrantOk(s.ring[0], grant)
             && Sender.Inv(s.sender)
    ensures var t := Consumed(s, grant, expired);
            Later(s, t)
  {
    hide AgentOk, RecordOk, GrantOk, HandleEvent, Sender.Inv, Sender.Submit;
    HandledReceived(s.agent, Input(s.ring[0], grant, true));
    var out := HandleEvent(s.agent, Input(s.ring[0], grant, true)).1;
    if out != [] {
      Invariant.SubmitKeeps(s.sender, out[0].record, expired);
      var (sender, ok) := Sender.Submit(s.sender, out[0].record, expired);
      HandledReceived(s.agent, Input(s.ring[0], grant, ok));
    }
  }

  lemma MovesGrow(s: System, step: Step, t: System)
    requires Inv(s) && Moves(s, step, t)
    ensures Later(s, t)
  {
    hide Inv, Consumed, CanCapture, Coming, GrantOk, RecordOk, Ready, Sender.Inv, Runs.Next, Runs.Possible;
    IsReady(s);
    match step {
      case AgentConsumes(grant, expired) =>
        ReadyMeans(s);
        SenderReady(s);
        ConsumedGrows(s, grant, expired);
      case SenderActs(action) =>
        SenderReady(s);
        Runs.NextKeeps(s.sender, action);
      case _ =>
    }
  }

  lemma SenderReady(s: System)
    requires Ready(s)
    ensures Sender.Inv(s.sender)
  {
    hide Sender.Inv;
  }

  lemma {:induction false} CountersGrow(states: seq<System>, steps: seq<Step>, i: nat, j: nat)
    requires IsRun(states, steps) && i <= j < |states|
    ensures Later(states[i], states[j])
    decreases j
  {
    hide Inv, Moves, Initial;
    if i < j {
      CountersGrow(states, steps, i, j - 1);
      InEveryState(states, steps, j - 1);
      MovesGrow(states[j - 1], steps[j - 1], states[j]);
    }
  }

  /** The report as the metrics thread takes it: the kernel's counters in state `i`, the sender's in `j`, and the
    * writer's received, pending-lost and enqueue-lost counts and its pending events in `k`, `l`, `m` and `n`. It is
    * out of balance by exactly the events the agent received while it was taken, less those that were submitted,
    * lost or refused after that number had been read and before the pending events were counted. */
  lemma StaggeredSnapshot(states: seq<System>, steps: seq<Step>, i: nat, j: nat, k: nat, l: nat, m: nat, n: nat)
    requires IsRun(states, steps) && i <= j <= k <= l <= m <= n < |states|
    ensures var r := Report(states[i], states[j], states[k], states[l], states[m], states[n]);
            var received := states[n].agent.received - states[i].agent.received;
            var submitted := |states[n].sender.accepted| - |states[j].sender.accepted|;
            var lost := states[n].agent.pendingLost - states[l].agent.pendingLost;
            var refused := states[n].agent.enqueueLost - states[m].agent.enqueueLost;
            && r.agentLost + r.acknowledged + r.inflight + Mains(states[i].ring)
                 == r.seenRecords + received - submitted - lost - refused
            && received >= 0 && submitted >= 0 && lost >= 0 && refused >= 0 && 0 <= r.senderInflight
  {
    hide LaneOk, OnlyFragments, AllSound, Sender.RecordsHeld, Sender.RecordsIn, Sender.BytesIn, Sender.Owned;
    hide Sender.Filled, Mains, Submitted;
    hide IsRun;
    SnapshotBalances(states, steps, i);
    SnapshotBalances(states, steps, j);
    SnapshotBalances(states, steps, n);
    CountersGrow(states, steps, i, n);
    CountersGrow(states, steps, j, n);
    CountersGrow(states, steps, l, n);
    CountersGrow(states, steps, m, n);
  }

  /** After the pending events were given up and the flush has returned, nothing is in flight: every event
    * that left the kernel ring is acknowledged or counted as lost. */
  lemma FinalSnapshot(states: seq<System>, steps: seq<Step>, i: nat)
    requires IsRun(states, steps) && i < |states| && states[i].agent.pending == map[]
             && Sender.Flushed(states[i].sender)
    ensures var s, m := states[i], MakeSnapshot(states[i]);
            && m.inflight == m.pendingInflight == m.senderInflight == 0
            && m.seenRecords == m.agentLost + m.acknowledged + Mains(s.ring)
  {
    SnapshotBalances(states, steps, i);
  }

  // What the counters count.

  /** The calls, ring drops, received events and refused submissions of a run, read off its steps. */
  datatype Tally = Tally(seen: nat, dropped: nat, received: nat, refused: nat)

  ghost function TallyOf(states: seq<System>, steps: seq<Step>, i: nat): Tally
    requires i <= |steps| < |states|
  {
    if i == 0 then Tally(0, 0, 0, 0)
    else
      var s, b := states[i - 1], TallyOf(states, steps, i - 1);
      match steps[i - 1]
      case ProbeDrops => b.(seen := b.seen + 1, dropped := b.dropped + 1)
      case ProbeCaptures(_, _, _) => b.(seen := b.seen + 1)
      case AgentConsumes(_, _) =>
        b.(received := b.received + (if s.ring != [] && Received(s.ring[0]) then 1 else 0),
           refused := b.refused + if |states[i].sender.accepted|
             == |s.sender.accepted| && Submits(s, steps[i - 1]) then 1 else 0)
      case _ => b
  }

  /** The record that the agent takes off the ring completes an event. */
  ghost predicate Submits(s: System, step: Step)
  {
    && step.AgentConsumes? && s.ring != [] && AgentOk(s.agent) && RecordOk(s.ring[0]) && GrantOk(s.ring[0], step.grant)
    && HandleEvent(s.agent, Input(s.ring[0], step.grant, true)).1 != []
  }

  ghost predicate Counts(s: System, b: Tally)
  {
    s.seen == b.seen && s.ringDropped == b.dropped && s.agent.received == b.received && s.agent.enqueueLost == b.refused
  }

  lemma ConsumedCounts(s: System, grant: Grant, expired: bool)
    requires s.ring != [] && AgentOk(s.agent) && RecordOk(s.ring[0]) && GrantOk(s.ring[0], grant)
             && Sender.Inv(s.sender)
    ensures var t := Consumed(s, grant, expired);
            && t.seen == s.seen && t.ringDropped == s.ringDropped
            && t.agent.received == s.agent.received + (if Received(s.ring[0]) then 1 else 0)
            && t.agent.enqueueLost == s.agent.enqueueLost
               + (if |t.sender.accepted| == |s.sender.accepted| && Submits(s, AgentConsumes(grant, expired)) then 1
                  else 0)
  {
    hide AgentOk, RecordOk, GrantOk, HandleEvent, Sender.Inv, Sender.Submit, KeyOf, Received;
    CountersTell(s.agent, Input(s.ring[0], grant, true));
    var out := HandleEvent(s.agent, Input(s.ring[0], grant, true)).1;
    if out != [] {
      Invariant.SubmitKeeps(s.sender, out[0].record, expired);
      var (sender, ok) := Sender.Submit(s.sender, out[0].record, expired);
      CountersTell(s.agent, Input(s.ring[0], grant, ok));
      OutSame(s.agent, s.ring[0], grant);
    }
  }

  lemma MovesCounts(states: seq<System>, steps: seq<Step>, i: nat)
    requires 0 < i <= |steps| < |states| && Inv(states[i - 1]) && Moves(states[i - 1], steps[i - 1], states[i])
    requires Counts(states[i - 1], TallyOf(states, steps, i - 1))
    ensures Counts(states[i], TallyOf(states, steps, i))
  {
    hide Inv, Consumed, CanCapture, Coming, GrantOk, RecordOk, Ready, Sender.Inv, Runs.Next, Runs.Possible, Submits;
    hide Received;
    var s, step := states[i - 1], steps[i - 1];
    IsReady(s);
    match step {
      case AgentConsumes(grant, expired) =>
        ReadyMeans(s);
        SenderReady(s);
        ConsumedCounts(s, grant, expired);
      case _ =>
    }
  }

  /** In every state of every run: the calls counted as seen are those the probe handled, the ring drops those without
    * room, the received events those the agent took in, and the enqueue losses the events it completed and the sender
    * refused. */
  lemma {:induction false} CountersAreTrue(states: seq<System>, steps: seq<Step>, i: nat)
    requires IsRun(states, steps) && i < |states|
    ensures Counts(states[i], TallyOf(states, steps, i))
  {
    hide Inv, Moves, Initial, Counts;
    if i == 0 {
      FirstCounts(states[0]);
    } else {
      CountersAreTrue(states, steps, i - 1);
      InEveryState(states, steps, i - 1);
      MovesCounts(states, steps, i);
    }
  }

  lemma FirstCounts(s: System)
    requires Initial(s)
    ensures Counts(s, Tally(0, 0, 0, 0))
  {
    hide Sender.Inv;
  }

  /** Whatever the sender uploads, in any state of any run, decodes record by record with the count sent along. */
  lemma BatchesDecode(states: seq<System>, steps: seq<Step>, i: nat, w: nat)
    requires IsRun(states, steps) && i < |states|
    requires w < |states[i].sender.workers| && states[i].sender.workers[w].Uploading?
    ensures var b := Sender.BatchAt(states[i].sender, states[i].sender.workers[w].batch);
            b.recordCount > 0 && RecordParser.Parse(b.payload).Parsed?
            && |RecordParser.Parse(b.payload).events| == b.recordCount
            && RecordParser.Records(RecordParser.Parse(b.payload).events) == b.records
  {
    hide LaneOk, OnlyFragments, AllSound, Sender.Inv, ValidRecord, Carries, SeqOf, Done;
    InEveryState(states, steps, i);
    Runs.UploadDecodes(states[i].sender, w);
  }
}
