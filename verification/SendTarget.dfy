/** The sender's channel and its workers' stubs against the resolver's list. */
module SendTarget {
  import opened Bytes
  import opened Wrappers

  const COMMA: byte := 44

  /** `join_addrs`. */
  function Join(list: seq<bytes>): bytes
  {
    if list == [] then [] else if |list| == 1 then list[0] else list[0] + [COMMA] + Join(list[1..])
  }

  /** The loop of `join_addrs`. */
  method JoinAddrs(list: seq<bytes>) returns (joined: bytes)
    ensures joined == Join(list)
  {
    joined := [];
    for i := 0 to |list|
      invariant i == 0 ==> joined == []
      invariant i > 0 ==> Join(list) == joined + (if i == |list| then [] else [COMMA] + Join(list[i..]))
    {
      if i > 0 {
        joined := joined + [COMMA];
      }
      joined := joined + list[i];
      assert i + 1 < |list| ==> list[i..][1..] == list[i + 1..];
      assert list[0..] == list;
    }
  }

  predicate Addresses(list: seq<bytes>)
  {
    forall i :: 0 <= i < |list| ==> list[i] != [] && COMMA !in list[i]
  }

  /** The text says exactly which addresses it was made of. */
  lemma {:induction false} JoinInjective(a: seq<bytes>, b: seq<bytes>)
    requires Addresses(a) && Addresses(b) && Join(a) == Join(b)
    ensures a == b
  {
    if a != [] && b != [] {
      Head(a);
      Head(b);
      assert a[0] == Join(a)[..ToComma(Join(a))] == b[0];
      if |a| > 1 && |b| > 1 {
        assert Join(a[1..]) == Join(a)[|a[0]| + 1..];
        assert Join(b[1..]) == Join(b)[|b[0]| + 1..];
        JoinInjective(a[1..], b[1..]);
        assert a == [a[0]] + a[1..] && b == [b[0]] + b[1..];
      }
    }
  }

  function ToComma(s: bytes): (n: nat)
    ensures n <= |s|
  {
    if s == [] || s[0] == COMMA then 0 else 1 + ToComma(s[1..])
  }

  lemma {:induction false} ToCommaAfter(s: bytes, rest: bytes)
    requires COMMA !in s && (rest != [] ==> rest[0] == COMMA)
    ensures ToComma(s + rest) == |s|
  {
    if s == [] {
      assert s + rest == rest;
    } else {
      assert (s + rest)[1..] == s[1..] + rest;
      ToCommaAfter(s[1..], rest);
    }
  }

  lemma Head(list: seq<bytes>)
    requires Addresses(list) && list != []
    ensures Join(list) != [] && ToComma(Join(list)) == |list[0]| && list[0] <= Join(list)
  {
    var rest := if |list| == 1 then [] else [COMMA] + Join(list[1..]);
    assert Join(list) == list[0] + rest;
    ToCommaAfter(list[0], rest);
  }

  // The sender.

  /** A worker's stub, by the addresses of the channel that it was made from. */
  datatype Worker = Worker(version: nat, stub: Option<seq<bytes>>)

  /** `history[v]` is the resolver's list at version `v`; `pending` is a version the discovery thread has read and is
    * building a channel for; `channels` are the channels so far, by their addresses: the last is in use, and
    * its number is the channel version. */
  datatype Target = Target(
    history: seq<seq<bytes>>, setVersion: nat, channels: seq<seq<bytes>>, address: bytes, switching: bool,
    pending: Option<nat>, workers: seq<Worker>)

  datatype Step = Change(list: seq<bytes>) | Read(force: bool) | Adopt | Swap | Use(w: nat)

  function Version(s: Target): nat
    requires s.history != []
  {
    |s.history| - 1
  }

  predicate CanStep(s: Target, step: Step)
  {
    s.history != [] && match step
                       case Change(_) => true
                       case Read(_) => s.pending.None?
                       case Adopt => s.pending.Some? && !s.switching && s.pending.value < |s.history|
                       case Swap => s.pending.Some? && s.switching && s.pending.value < |s.history|
                       case Use(w) => w < |s.workers| && !s.switching
  }

  /** `get_send_target` finds something to send to. */
  predicate CanSend(s: Target)
  {
    !s.switching && s.channels != [] && s.address != []
  }

  /** A worker before an upload: its stub is made anew if it has none or the channel version moved. */
  function Refreshed(s: Target, p: Worker): Worker
  {
    if CanSend(s) && (p.stub.None? || p.version != |s.channels|) then
      Worker(|s.channels|, Some(s.channels[|s.channels| - 1])) else p
  }

  function Next(s: Target, step: Step): Target
    requires CanStep(s, step)
  {
    match step
    case Change(list) => if list == s.history[Version(s)] then s else s.(history := s.history + [list])
    case Read(force) => if force || Version(s) != s.setVersion then s.(pending := Some(Version(s))) else s
    case Adopt =>
      if s.history[s.pending.value] == [] then s.(setVersion := s.pending.value, pending := None)
      else s.(setVersion := s.pending.value, switching := true)
    case Swap =>
      var list := s.history[s.pending.value];
      s.(channels := s.channels + [list], address := Join(list), switching := false, pending := None)
    case Use(w) => s.(workers := s.workers[w := Refreshed(s, s.workers[w])])
  }

  predicate StubOk(s: Target, p: Worker)
  {
    p.stub.Some? ==> 0 < p.version <= |s.channels| && p.stub.value == s.channels[p.version - 1]
  }

  predicate TargetOk(s: Target)
  {
    && s.history != [] && s.history[0] == [] && s.setVersion < |s.history|
    && s.address == (if s.channels == [] then [] else Join(s.channels[|s.channels| - 1]))
    && (s.pending.Some? ==> s.pending.value < |s.history|)
    && (s.switching ==> s.pending == Some(s.setVersion) && s.history[s.setVersion] != [])
    && (!s.switching && s.history[s.setVersion] != [] ==>
         s.channels != [] && s.channels[|s.channels| - 1] == s.history[s.setVersion])
    && (forall w :: 0 <= w < |s.workers| ==> StubOk(s, s.workers[w]))
  }

  lemma TargetKept(s: Target, step: Step)
    requires TargetOk(s) && CanStep(s, step)
    ensures TargetOk(Next(s, step))
  {
    hide Join;
    var t := Next(s, step);
    forall w | 0 <= w < |t.workers|
      ensures StubOk(t, t.workers[w])
    {
      assert StubOk(s, s.workers[w]);
    }
  }

  function Before(count: nat): Target
  {
    Target([[]], 0, [], [], false, None, seq(count, i => Worker(0, None)))
  }

  ghost predicate TargetRun(states: seq<Target>, steps: seq<Step>)
  {
    && |states| == |steps| + 1 && (exists count: nat :: states[0] == Before(count))
    && forall i :: 0 <= i < |steps| ==> CanStep(states[i], steps[i]) && states[i + 1] == Next(states[i], steps[i])
  }

  lemma {:induction false} TargetInEveryState(states: seq<Target>, steps: seq<Step>, i: nat)
    requires TargetRun(states, steps) && i < |states|
    ensures TargetOk(states[i])
  {
    hide TargetOk, CanStep, Next;
    if i == 0 {
      var count: nat :| states[0] == Before(count);
      BeforeOk(count);
    } else {
      TargetInEveryState(states, steps, i - 1);
      TargetKept(states[i - 1], steps[i - 1]);
    }
  }

  lemma BeforeOk(count: nat)
    ensures TargetOk(Before(count))
  {
  }

  /** Whenever the sender is not switching, its version is the resolver's and the resolver's list is not empty: the
    * channel is over exactly the resolver's addresses, and the target text is theirs and no other list's. */
  lemma TargetCoherent(states: seq<Target>, steps: seq<Step>, i: nat)
    requires TargetRun(states, steps) && i < |states|
    ensures states[i].history != []
    ensures var s := states[i];
            var list := s.history[Version(s)];
            !s.switching && s.setVersion == Version(s) && list != [] ==>
              && s.channels != [] && s.channels[|s.channels| - 1] == list && s.address == Join(list)
              && (Addresses(list) ==> CanSend(s) && forall other :: Addresses(other) && Join(other) == s.address ==>
                                                      other == list)
  {
    hide Join, Addresses;
    TargetInEveryState(states, steps, i);
    var s := states[i];
    var list := s.history[Version(s)];
    if Addresses(list) && list != [] {
      Head(list);
      forall other | Addresses(other) && Join(other) == Join(list)
        ensures other == list
      {
        JoinInjective(other, list);
      }
    }
  }

  /** A worker about to upload always holds a stub of the channel in use, even if the channel was switched any number
    * of times since its last upload. */
  lemma UseIsCurrent(states: seq<Target>, steps: seq<Step>, i: nat)
    requires TargetRun(states, steps) && i < |steps| && steps[i].Use? && CanSend(states[i])
    ensures var s, w := states[i], steps[i].w;
            && w < |states[i + 1].workers|
               && states[i + 1].workers[w] == Worker(|s.channels|, Some(s.channels[|s.channels| - 1]))
            && s.address == Join(s.channels[|s.channels| - 1])
  {
    hide Join;
    TargetInEveryState(states, steps, i);
    var s := states[i];
    assert StubOk(s, s.workers[steps[i].w]);
  }

  // A rebuild goes through.

  /** From a read that found another version up to step `k` the discovery thread is at it. */
  ghost predicate Rebuilding(states: seq<Target>, steps: seq<Step>, i: nat, k: nat)
  {
    && TargetRun(states, steps) && i < k < |states| && steps[i].Read?
    && states[i].history != [] && (steps[i].force || Version(states[i]) != states[i].setVersion)
    && forall m :: i < m < k ==> states[m].pending.Some?
  }

  /** What was read is kept until it is adopted and the channel made. */
  ghost predicate HasRead(s: Target, t: Target)
    requires s.history != []
  {
    && t.pending == Some(Version(s)) && t.channels == s.channels && s.history <= t.history
    && (t.switching ==> t.setVersion == Version(s) && s.history[Version(s)] != [])
  }

  lemma StepRead(s: Target, step: Step)
    requires TargetOk(s) && CanStep(s, step) && step.Read? && (step.force || Version(s) != s.setVersion)
    ensures HasRead(s, Next(s, step))
  {
    hide Join;
  }

  /** One step of the discovery thread finishes the rebuild or leaves it to the next, which it can always take. */
  lemma StepRebuild(s: Target, t: Target, step: Step)
    requires s.history != [] && HasRead(s, t) && CanStep(t, step)
    ensures var u, v := Next(t, step), Version(s);
            if u.pending.Some? then HasRead(s, u)
            else
              && u.setVersion == v && !u.switching
              && u.channels == (if s.history[v] == [] then s.channels else s.channels + [s.history[v]])
    ensures CanStep(t, Adopt) || CanStep(t, Swap)
  {
    hide Join;
    var v := Version(s);
    assert t.history[v] == s.history[v];
  }

  lemma {:induction false} StillRead(states: seq<Target>, steps: seq<Step>, i: nat, k: nat)
    requires Rebuilding(states, steps, i, k) && states[k].pending.Some?
    ensures HasRead(states[i], states[k])
    decreases k
  {
    hide Next, TargetOk, HasRead, CanStep;
    if k == i + 1 {
      TargetInEveryState(states, steps, i);
      StepRead(states[i], steps[i]);
    } else {
      StillRead(states, steps, i, k - 1);
      StepRebuild(states[i], states[k - 1], steps[k - 1]);
    }
  }

  /** Whenever the discovery thread finds that the resolver's version moved, then however workers and the resolver go on
    * meanwhile: as soon as it is through, the sender has that version, and a new channel over that version's list
    * unless the list is empty; then the old channel stays. */
  lemma RebuildEnds(states: seq<Target>, steps: seq<Step>, i: nat, k: nat)
    requires Rebuilding(states, steps, i, k) && states[k].pending.None?
    ensures var s, t := states[i], states[k];
            var list := s.history[Version(s)];
            && t.setVersion == Version(s) && !t.switching
            && t.channels == (if list == [] then s.channels else s.channels + [list])
            && (list != [] ==> t.address == Join(list))
  {
    hide Next, HasRead, CanStep, Join;
    TargetInEveryState(states, steps, k);
    TargetInEveryState(states, steps, i);
    if k == i + 1 {
      StepRead(states[i], steps[i]);
      ReadPends(states[i], Next(states[i], steps[i]));
    } else {
      StillRead(states, steps, i, k - 1);
      StepRebuild(states[i], states[k - 1], steps[k - 1]);
    }
  }

  lemma ReadPends(s: Target, t: Target)
    requires s.history != [] && HasRead(s, t)
    ensures t.pending.Some?
  {
  }

  /** A change of the resolver's list is noticed: its version moves exactly when the list does. */
  lemma ChangeShows(s: Target, list: seq<bytes>)
    requires s.history != []
    ensures var t := Next(s, Change(list));
            && t.history != [] && t.history[Version(t)] == list
            && Version(t) == Version(s) + (if list == s.history[Version(s)] then 0 else 1)
  {
    hide Join;
  }
}
