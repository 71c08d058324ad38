/** The resolver's loop of ranges and watches, over any history of the registry. */
module Discovery {
  import opened Bytes
  import opened Wrappers
  import opened AddressList
  import opened Watch

  /** An open watch: the working list, and the revision up to which events were delivered. */
  datatype Stream = Stream(working: seq<bytes>, delivered: nat)

  /** `log[v]` are the changes to the service's keys with revision `v + 1`, often none; the rest are the resolver's
    * fields. */
  datatype State = State(log: seq<seq<Event>>, addresses: seq<bytes>, version: nat, revision: nat,
                         stream: Option<Stream>)

  /** `Range` brings the addresses of a revision's entries, in the order of their keys. `Deliver` is a response with all
    * events up to the revision in its header, `Silent` one without events. */
  datatype Step =
    | Change(events: seq<Event>)
    | Range(revision: nat, entries: seq<bytes>)
    | RangeFails
    | Open
    | Deliver(upTo: nat)
    | Silent
    | Breaks

  function Events(log: seq<seq<Event>>): seq<Event>
  {
    if log == [] then [] else log[0] + Events(log[1..])
  }

  /** The valid entries of the service at a revision. */
  function Registry(log: seq<seq<Event>>, revision: nat): map<bytes, bytes>
    requires revision <= |log|
  {
    AfterAll(map[], Events(log[..revision]))
  }

  function Batch(s: State, upTo: nat): seq<Event>
    requires s.stream.Some? && s.stream.value.delivered <= upTo <= |s.log|
  {
    Events(s.log[s.stream.value.delivered..upTo])
  }

  predicate CanStep(s: State, a: Step)
  {
    match a
    case Change(_) => true
    case Range(v, entries) => s.stream.None? && v <= |s.log| && ToSet(entries) == Registry(s.log, v).Values
    case RangeFails => s.stream.None?
    case Open => s.stream.None?
    case Deliver(upTo) =>
      s.stream.Some? && s.stream.value.delivered < upTo <= |s.log| && Batch(s, upTo) != []
    case Silent => s.stream.Some?
    case Breaks => s.stream.Some?
  }

  /** `apply_new_set`. */
  function Applied(s: State, list: seq<bytes>, revision: nat): State
  {
    var sorted := Sorted(list);
    s.(addresses := sorted, version := if sorted == s.addresses then s.version else s.version + 1, revision := revision)
  }

  /** Some event of the response changed the working list. */
  predicate Changes(working: seq<bytes>, events: seq<Event>)
    decreases |events|
  {
    events != [] && Fold(working, events[0]).Some?
    && (Fold(working, events[0]).value != working || Changes(working, events[1..]))
  }

  function Next(s: State, a: Step): State
    requires CanStep(s, a)
  {
    match a
    case Change(events) => s.(log := s.log + [events])
    case Range(v, entries) => Applied(s, Dedup(entries), v)
    case RangeFails => s
    case Open => s.(stream := Some(Stream(s.addresses, s.revision)))
    case Deliver(upTo) =>
      var working := s.stream.value.working;
      (match FoldAll(working, Batch(s, upTo))
       case None => s.(stream := None)
       case Some(list) =>
         var t := s.(stream := Some(Stream(list, upTo)));
         if Changes(working, Batch(s, upTo)) then Applied(t, list, if upTo > s.revision then upTo else s.revision)
         else t)
    case Silent => s
    case Breaks => s.(stream := None)
  }

  /** What happens to the registry in this history is harmless to the watch. */
  predicate HarmlessStep(s: State, a: Step)
  {
    a.Change? ==> AllHarmless(Registry(s.log, |s.log|), a.events)
  }

  // Events and revisions.

  lemma {:induction false} EventsJoin(a: seq<seq<Event>>, b: seq<seq<Event>>)
    ensures Events(a + b) == Events(a) + Events(b)
  {
    if a == [] {
      assert a + b == b;
    } else {
      assert (a + b)[1..] == a[1..] + b;
      EventsJoin(a[1..], b);
    }
  }

  lemma {:induction false} AfterJoin(registry: map<bytes, bytes>, a: seq<Event>, b: seq<Event>)
    ensures AfterAll(registry, a + b) == AfterAll(AfterAll(registry, a), b)
    decreases |a|
  {
    hide After;
    if a == [] {
      assert a + b == b;
    } else {
      assert (a + b)[1..] == a[1..] + b;
      AfterJoin(After(registry, a[0]), a[1..], b);
    }
  }

  lemma {:induction false} HarmlessJoin(registry: map<bytes, bytes>, a: seq<Event>, b: seq<Event>)
    ensures AllHarmless(registry, a + b) <==> AllHarmless(registry, a) && AllHarmless(AfterAll(registry, a), b)
    decreases |a|
  {
    hide After, Harmless;
    if a == [] {
      assert a + b == b;
    } else {
      assert (a + b)[1..] == a[1..] + b;
      HarmlessJoin(After(registry, a[0]), a[1..], b);
    }
  }

  /** What is logged later does not change the registry at a revision. */
  lemma RegistryStays(log: seq<seq<Event>>, events: seq<Event>, v: nat)
    requires v <= |log|
    ensures Registry(log + [events], v) == Registry(log, v)
  {
    assert (log + [events])[..v] == log[..v];
  }

  /** A response's events lead from one revision to the other. */
  lemma RegistryMoves(log: seq<seq<Event>>, v: nat, w: nat)
    requires v <= w <= |log|
    ensures Registry(log, w) == AfterAll(Registry(log, v), Events(log[v..w]))
    ensures AllHarmless(map[], Events(log)) ==> AllHarmless(Registry(log, v), Events(log[v..w]))
  {
    hide AllHarmless, AfterAll;
    assert log[..w] == log[..v] + log[v..w] && log == log[..w] + log[w..];
    EventsJoin(log[..v], log[v..w]);
    EventsJoin(log[..w], log[w..]);
    AfterJoin(map[], Events(log[..v]), Events(log[v..w]));
    HarmlessJoin(map[], Events(log[..v]), Events(log[v..w]));
    HarmlessJoin(map[], Events(log[..w]), Events(log[w..]));
  }

  // The invariant.

  ghost predicate Agrees(list: seq<bytes>, log: seq<seq<Event>>, v: nat)
  {
    v <= |log| && Unique(list) && ToSet(list) == Registry(log, v).Values
  }

  ghost predicate Inv(s: State)
  {
    && AllHarmless(map[], Events(s.log)) && Strict(s.addresses) && Agrees(s.addresses, s.log, s.revision)
    && (s.stream.Some? ==>
         && s.revision <= s.stream.value.delivered && Agrees(s.stream.value.working, s.log, s.stream.value.delivered)
         && ToSet(s.addresses) == ToSet(s.stream.value.working))
  }

  lemma StrictUnique(list: seq<bytes>)
    requires Strict(list)
    ensures Unique(list)
  {
  }

  lemma AppliedAgrees(s: State, list: seq<bytes>, v: nat)
    requires Agrees(list, s.log, v)
    ensures Strict(Applied(s, list, v).addresses) && Agrees(Applied(s, list, v).addresses, s.log, v)
    ensures ToSet(Applied(s, list, v).addresses) == ToSet(list)
  {
    hide Registry, Strict, Unique, Sorted;
    SortedKeeps(list);
    StrictUnique(Sorted(list));
    SetOf(Sorted(list), list);
  }

  lemma RangeAgrees(s: State, v: nat, entries: seq<bytes>)
    requires CanStep(s, Range(v, entries))
    ensures Agrees(Dedup(entries), s.log, v)
  {
    hide Registry, Dedup;
    DedupKeeps(entries);
    SetOf(Dedup(entries), entries);
  }

  lemma DeliverAgrees(s: State, upTo: nat)
    requires Inv(s) && CanStep(s, Deliver(upTo)) && FoldAll(s.stream.value.working, Batch(s, upTo)).Some?
    ensures Agrees(FoldAll(s.stream.value.working, Batch(s, upTo)).value, s.log, upTo)
  {
    hide Registry, Events, AllHarmless, FoldAll, AfterAll, Strict, Unique;
    var stream := s.stream.value;
    RegistryMoves(s.log, stream.delivered, upTo);
    WatchAgrees(Registry(s.log, stream.delivered), stream.working, Batch(s, upTo));
  }

  /** Without a change the working list stays as it is. */
  lemma {:induction false} UnchangedFold(working: seq<bytes>, events: seq<Event>)
    ensures FoldAll(working, events).Some? && !Changes(working, events) ==> FoldAll(working, events).value == working
    decreases |events|
  {
    hide Fold;
    if events != [] && Fold(working, events[0]) == Some(working) {
      UnchangedFold(working, events[1..]);
    }
  }

  /** The watch gives up exactly when a deletion comes that does not name its address. */
  lemma {:induction false} FoldStops(working: seq<bytes>, events: seq<Event>)
    ensures FoldAll(working, events).None? <==> exists i :: 0 <= i < |events| && events[i].DeleteSilent?
    decreases |events|
  {
    if events != [] {
      if Fold(working, events[0]).Some? {
        FoldStops(Fold(working, events[0]).value, events[1..]);
        assert forall i :: 0 < i < |events| ==> events[i] == events[1..][i - 1];
      }
    }
  }

  lemma ChangeKeeps(s: State, events: seq<Event>)
    requires Inv(s) && AllHarmless(Registry(s.log, |s.log|), events)
    ensures Inv(s.(log := s.log + [events]))
  {
    hide AllHarmless, AfterAll, Strict, Unique;
    assert s.log[..|s.log|] == s.log;
    EventsJoin(s.log, [events]);
    assert Events([events]) == events by {
      OneBatch(events);
    }
    HarmlessJoin(map[], Events(s.log), events);
    hide Registry, Events;
    RegistryStays(s.log, events, s.revision);
    if s.stream.Some? {
      RegistryStays(s.log, events, s.stream.value.delivered);
    }
  }

  lemma OneBatch(events: seq<Event>)
    ensures Events([events]) == events
  {
    assert [events][1..] == [];
  }

  lemma NextKeeps(s: State, a: Step)
    requires Inv(s) && CanStep(s, a) && HarmlessStep(s, a)
    ensures Inv(Next(s, a))
  {
    hide Agrees, Applied, AllHarmless, Strict, Dedup, FoldAll, Changes, Registry, Events, Batch;
    AddressesApply(s);
    match a {
      case Change(events) => ChangeKeeps(s, events);
      case Range(v, entries) =>
        RangeAgrees(s, v, entries);
        AppliedAgrees(s, Dedup(entries), v);
        AppliedRest(s, Dedup(entries), v);
      case Deliver(upTo) =>
        if FoldAll(s.stream.value.working, Batch(s, upTo)).Some? {
          var list := FoldAll(s.stream.value.working, Batch(s, upTo)).value;
          DeliverAgrees(s, upTo);
          var t := s.(stream := Some(Stream(list, upTo)));
          AppliedAgrees(t, list, upTo);
          AppliedRest(t, list, upTo);
          UnchangedFold(s.stream.value.working, Batch(s, upTo));
        }
      case _ =>
    }
  }

  lemma AddressesApply(s: State)
    ensures Inv(s) ==> Agrees(s.addresses, s.log, s.revision)
  {
    hide Agrees, AllHarmless, Strict;
  }

  lemma AppliedRest(s: State, list: seq<bytes>, v: nat)
    ensures var t := Applied(s, list, v); t.log == s.log && t.stream == s.stream && t.revision == v
  {
  }

  // Runs.

  predicate Initial(s: State)
  {
    s.log == [] && s.addresses == [] && s.revision == 0 && s.stream.None?
  }

  ghost predicate HarmlessRun(states: seq<State>, steps: seq<Step>)
  {
    && |states| == |steps| + 1 && Initial(states[0])
    && forall i :: 0 <= i < |steps| ==>
         CanStep(states[i], steps[i]) && states[i + 1] == Next(states[i], steps[i]) && HarmlessStep(states[i], steps[i])
  }

  lemma {:induction false} InEveryState(states: seq<State>, steps: seq<Step>, i: nat)
    requires HarmlessRun(states, steps) && i < |states|
    ensures Inv(states[i])
  {
    hide CanStep, Next, HarmlessStep, Inv, Initial;
    if i == 0 {
      InitialInv(states[0]);
    } else {
      InEveryState(states, steps, i - 1);
      NextKeeps(states[i - 1], steps[i - 1]);
    }
  }

  lemma InitialInv(s: State)
    requires Initial(s)
    ensures Inv(s)
  {
    var none: map<bytes, bytes> := map[];
    assert none.Values == {};
  }

  /** In every state of every run of the loop - ranges that succeed or fail, watches that open, deliver, break or
    * ask for a fresh range - the resolver's list is the one sorted list of the addresses that were registered at
    * the resolver's revision. */
  lemma ListIsRegistry(states: seq<State>, steps: seq<Step>, i: nat, list: seq<bytes>)
    requires HarmlessRun(states, steps) && i < |states|
    ensures var s := states[i];
            && s.revision <= |s.log| && Strict(s.addresses) && ToSet(s.addresses) == Registry(s.log, s.revision).Values
            && (Strict(list) && ToSet(list) == Registry(s.log, s.revision).Values ==> list == s.addresses)
  {
    hide HarmlessRun, Registry, Strict, AllHarmless, Unique, Events;
    InEveryState(states, steps, i);
    var s := states[i];
    if Strict(list) && ToSet(list) == Registry(s.log, s.revision).Values {
      SameMembers(list, s.addresses);
      StrictIsCanonical(list, s.addresses);
    }
  }

  /** While a watch is open, the list is that of the registry as far as its changes were delivered: none is kept
    * back. */
  lemma ListIsDelivered(states: seq<State>, steps: seq<Step>, i: nat)
    requires HarmlessRun(states, steps) && i < |states| && states[i].stream.Some?
    ensures var s, at := states[i], states[i].stream.value.delivered;
            s.revision <= at <= |s.log| && ToSet(s.addresses) == Registry(s.log, at).Values
  {
    hide HarmlessRun, Registry, Strict, AllHarmless, Unique, Events;
    InEveryState(states, steps, i);
  }

  /** What each step of the loop achieves. A range brings list and revision to its own, a watch begins where the
    * list is, and a response that names no silent deletion brings the list to its revision at once: if the set of
    * addresses changes, the resolver's revision moves there and its version by one. A silent deletion ends the
    * watch, so that a range comes next; and so does a break. */
  lemma StepsMove(states: seq<State>, steps: seq<Step>, i: nat)
    requires HarmlessRun(states, steps) && i < |steps|
    ensures CanStep(states[i], steps[i])
    ensures var s, t := states[i], states[i + 1];
            match steps[i]
            case Range(v, _) =>
              v <= |t.log| && t.revision == v && ToSet(t.addresses) == Registry(t.log, v).Values && t.stream.None?
            case Open => t.stream.Some? && t.stream.value.delivered == s.revision && t.addresses == s.addresses
            case Deliver(upTo) =>
              if exists j :: 0 <= j < |Batch(s, upTo)| && Batch(s, upTo)[j].DeleteSilent? then t == s.(stream := None)
              else
                && t.stream.Some? && t.stream.value.delivered == upTo
                   && ToSet(t.addresses) == Registry(t.log, upTo).Values
                && (Registry(t.log, s.stream.value.delivered).Values != Registry(t.log, upTo).Values ==>
                      t.revision == upTo && t.version == s.version + 1)
            case Breaks => t == s.(stream := None)
            case _ => t.addresses == s.addresses && t.revision == s.revision && t.stream == s.stream
  {
    hide AllHarmless, Registry, Events, FoldAll, Dedup, Strict, Unique, HarmlessStep, Sorted, Changes, AfterAll;
    InEveryState(states, steps, i);
    InEveryState(states, steps, i + 1);
    var s, t := states[i], states[i + 1];
    match steps[i] {
      case Range(v, entries) => AppliedRest(s, Dedup(entries), v);
      case Deliver(upTo) =>
        FoldStops(s.stream.value.working, Batch(s, upTo));
        if FoldAll(s.stream.value.working, Batch(s, upTo)).Some? {
          DeliverMoves(s, upTo);
        }
      case _ =>
    }
  }

  lemma DeliverMoves(s: State, upTo: nat)
    requires Inv(s) && CanStep(s, Deliver(upTo)) && Inv(Next(s, Deliver(upTo)))
    requires FoldAll(s.stream.value.working, Batch(s, upTo)).Some?
    ensures var t := Next(s, Deliver(upTo));
            && t.log == s.log && t.stream.Some? && t.stream.value.delivered == upTo
            && ToSet(t.addresses) == Registry(t.log, upTo).Values
            && (Registry(t.log, s.stream.value.delivered).Values != Registry(t.log, upTo).Values ==>
                  t.revision == upTo && t.version == s.version + 1)
  {
    hide AllHarmless, Registry, Events, FoldAll, Strict, Unique, Sorted, Changes;
    var list := FoldAll(s.stream.value.working, Batch(s, upTo)).value;
    AppliedRest(s.(stream := Some(Stream(list, upTo))), list, upTo);
    UnchangedFold(s.stream.value.working, Batch(s, upTo));
  }

  /** The revision never goes back but for a range that was answered from an older one; and a step moves the version, by
    * one, exactly when it changes the list. */
  lemma VersionTells(states: seq<State>, steps: seq<Step>, i: nat)
    requires HarmlessRun(states, steps) && i < |steps|
    ensures var s, t := states[i], states[i + 1];
            && t.version == s.version + (if t.addresses == s.addresses then 0 else 1)
            && (t.revision < s.revision ==> steps[i].Range? && steps[i].revision == t.revision)
  {
    hide Registry, AllHarmless, Events, FoldAll, Changes, Dedup, Sorted, HarmlessStep;
  }
}
