/** Folding watch events into the address list, against asking for a fresh range. */
module Watch {
  import opened Bytes
  import opened Wrappers
  import opened AddressList

  /** A change of the registry. A deletion names its address only if it comes with the old value, which a watch has
    * to ask for and the resolver's does not: so `DeleteNamed` is a branch of its code that it never gets to, and
    * every deletion makes it ask for a fresh range. */
  datatype Event =
    | PutValid(key: bytes, address: bytes)
    | PutInvalid(key: bytes)
    | DeleteSilent(key: bytes)
    | DeleteNamed(key: bytes, address: bytes)

  /** The valid entries of the service, by key. */
  function After(registry: map<bytes, bytes>, e: Event): map<bytes, bytes>
  {
    match e
    case PutValid(k, a) => registry[k := a]
    case _ => registry - {e.key}
  }

  /** One event on the working list; without a result the watch gives up and asks for a fresh range. */
  function Fold(working: seq<bytes>, e: Event): Option<seq<bytes>>
  {
    match e
    case PutValid(_, a) => Some(if a in working then working else working + [a])
    case PutInvalid(_) => Some(working)
    case DeleteSilent(_) => None
    case DeleteNamed(_, a) => Some(Without(working, a))
  }

  function Without(list: seq<bytes>, a: bytes): seq<bytes>
  {
    if list == [] then [] else if list[0] == a then list[1..] else [list[0]] + Without(list[1..], a)
  }

  predicate HeldByOther(registry: map<bytes, bytes>, k: bytes)
    requires k in registry
  {
    exists other :: other in registry && other != k && registry[other] == registry[k]
  }

  /** When folding the event is as good as asking again. */
  predicate Harmless(registry: map<bytes, bytes>, e: Event)
  {
    match e
    case PutValid(k, a) => k in registry && registry[k] != a ==> HeldByOther(registry, k)
    case PutInvalid(k) => k in registry ==> HeldByOther(registry, k)
    case DeleteSilent(_) => true
    case DeleteNamed(k, _) => k in registry && !HeldByOther(registry, k)
  }

  lemma {:induction false} WithoutSpec(list: seq<bytes>, a: bytes)
    requires Unique(list)
    ensures Unique(Without(list, a)) && forall x :: x in Without(list, a) <==> x in list && x != a
  {
    if list != [] {
      var rest := list[1..];
      assert list[0] !in rest;
      assert forall x :: x in list <==> x == list[0] || x in rest;
      WithoutSpec(rest, a);
      if list[0] != a {
        var less := Without(rest, a);
        assert list[0] !in less;
        assert forall x :: x in [list[0]] + less <==> x == list[0] || x in less;
      }
    }
  }

  /** For a list that agrees with the registry: after the event it still agrees if and only if the event is
    * harmless. What is not is a key whose entry is rewritten, with another address or with none, unless another
    * key has the old address; and it would be the named deletion of an address that two keys share. */
  lemma FoldExact(registry: map<bytes, bytes>, working: seq<bytes>, e: Event)
    requires Unique(working) && ToSet(working) == registry.Values
    requires e.DeleteNamed? ==> e.key in registry && registry[e.key] == e.address
    requires Fold(working, e).Some?
    ensures Unique(Fold(working, e).value)
    ensures ToSet(Fold(working, e).value) == After(registry, e).Values <==> Harmless(registry, e)
  {
    match e {
      case PutValid(k, a) => PutExact(registry, working, k, a);
      case PutInvalid(k) => InvalidExact(registry, working, k);
      case DeleteNamed(k, a) => DeleteExact(registry, working, k, a);
      case DeleteSilent(_) => assert false;
    }
  }

  lemma PutExact(registry: map<bytes, bytes>, working: seq<bytes>, k: bytes, a: bytes)
    requires Unique(working) && ToSet(working) == registry.Values
    ensures var next := if a in working then working else working + [a];
            Unique(next) && (ToSet(next) == registry[k := a].Values <==> Harmless(registry, PutValid(k, a)))
  {
    var next := if a in working then working else working + [a];
    var after := registry[k := a];
    assert ToSet(next) == registry.Values + {a} by {
      forall x
        ensures x in ToSet(next) <==> x in registry.Values || x == a
      {
        assert x in working <==> x in ToSet(working);
      }
    }
    assert after[k] == a;
    if k in registry && registry[k] != a {
      var lost := registry[k];
      assert lost in ToSet(next);
      if HeldByOther(registry, k) {
        RewriteKeeps(registry, k, a);
      } else {
        assert lost !in after.Values;
      }
    } else {
      RewriteAdds(registry, k, a);
    }
  }

  lemma RewriteKeeps(registry: map<bytes, bytes>, k: bytes, a: bytes)
    requires k in registry && HeldByOther(registry, k)
    ensures registry[k := a].Values == registry.Values + {a}
  {
    var after := registry[k := a];
    forall x
      ensures x in after.Values <==> x in registry.Values + {a}
    {
      if x in registry.Values {
        var j :| j in registry && registry[j] == x;
        if j == k {
          var other :| other in registry && other != k && registry[other] == registry[k];
          assert after[other] == x;
        } else {
          assert after[j] == x;
        }
      }
      assert after[k] == a;
    }
  }

  lemma RewriteAdds(registry: map<bytes, bytes>, k: bytes, a: bytes)
    requires k in registry ==> registry[k] == a
    ensures registry[k := a].Values == registry.Values + {a}
  {
    var after := registry[k := a];
    forall x
      ensures x in after.Values <==> x in registry.Values + {a}
    {
      if x in registry.Values {
        var j :| j in registry && registry[j] == x;
        assert after[j] == x;
      }
      assert after[k] == a;
    }
  }

  /** Removing a key removes its address unless another key has it. */
  lemma RemoveValues(registry: map<bytes, bytes>, k: bytes)
    requires k in registry
    ensures (registry - {k}).Values == if HeldByOther(registry, k) then registry.Values
                                       else registry.Values - {registry[k]}
  {
    var after := registry - {k};
    forall x
      ensures x in after.Values <==> x in registry.Values && (x == registry[k] ==> HeldByOther(registry, k))
    {
      if x in registry.Values && x != registry[k] {
        var j :| j in registry && registry[j] == x;
        assert j in after && after[j] == x;
      }
      if x == registry[k] && HeldByOther(registry, k) {
        var other :| other in registry && other != k && registry[other] == registry[k];
        assert other in after && after[other] == x;
      }
    }
  }

  lemma InvalidExact(registry: map<bytes, bytes>, working: seq<bytes>, k: bytes)
    requires ToSet(working) == registry.Values
    ensures ToSet(working) == (registry - {k}).Values <==> Harmless(registry, PutInvalid(k))
  {
    if k in registry {
      RemoveValues(registry, k);
      assert registry[k] in registry.Values;
    } else {
      assert registry - {k} == registry;
    }
  }

  lemma DeleteExact(registry: map<bytes, bytes>, working: seq<bytes>, k: bytes, a: bytes)
    requires Unique(working) && ToSet(working) == registry.Values && k in registry && registry[k] == a
    ensures Unique(Without(working, a))
    ensures ToSet(Without(working, a)) == (registry - {k}).Values <==> Harmless(registry, DeleteNamed(k, a))
  {
    RemoveValues(registry, k);
    WithoutSpec(working, a);
    assert registry[k] in registry.Values;
    assert ToSet(Without(working, a)) == registry.Values - {a} by {
      forall x
        ensures x in ToSet(Without(working, a)) <==> x in registry.Values && x != a
      {
        assert x in working <==> x in ToSet(working);
      }
    }
  }

  /** A collector that registers again with another address: the old one stays in the list. */
  lemma RewrittenKeyLingers(key: bytes, address: bytes, moved: bytes)
    requires address != moved
    ensures var registry, e := map[key := address], PutValid(key, moved);
            && Fold([address], e) == Some([address, moved]) && After(registry, e).Values == {moved}
            && ToSet([address]) == registry.Values && ToSet([address, moved]) != After(registry, e).Values
  {
    var registry, e := map[key := address], PutValid(key, moved);
    assert [address] + [moved] == [address, moved];
    assert registry.Values == {address} by {
      assert registry[key] == address;
    }
    assert After(registry, e) == map[key := moved] && After(registry, e)[key] == moved;
    assert After(registry, e).Values == {moved};
    assert ToSet([address]) == {address};
    assert address in ToSet([address, moved]) by {
      assert address == [address, moved][0];
    }
  }

  function AfterAll(registry: map<bytes, bytes>, events: seq<Event>): map<bytes, bytes>
    decreases |events|
  {
    if events == [] then registry else AfterAll(After(registry, events[0]), events[1..])
  }

  function FoldAll(working: seq<bytes>, events: seq<Event>): Option<seq<bytes>>
    decreases |events|
  {
    if events == [] then Some(working) else
      match Fold(working, events[0])
      case None => None
      case Some(next) => FoldAll(next, events[1..])
  }

  predicate AllHarmless(registry: map<bytes, bytes>, events: seq<Event>)
    decreases |events|
  {
    events == [] ||
    (Harmless(registry, events[0])
     && (events[0].DeleteNamed? ==> events[0].key in registry && registry[events[0].key] == events[0].address)
     && AllHarmless(After(registry, events[0]), events[1..]))
  }

  /** A burst of harmless events leaves the watch with what a fresh range would bring, or with none. */
  lemma {:induction false} WatchAgrees(registry: map<bytes, bytes>, working: seq<bytes>, events: seq<Event>)
    requires Unique(working) && ToSet(working) == registry.Values && AllHarmless(registry, events)
    ensures FoldAll(working, events).Some? ==>
              Unique(FoldAll(working, events).value)
              && ToSet(FoldAll(working, events).value) == AfterAll(registry, events).Values
    decreases |events|
  {
    hide Harmless, Fold, After;
    if events != [] {
      if Fold(working, events[0]).Some? {
        FoldExact(registry, working, events[0]);
        WatchAgrees(After(registry, events[0]), Fold(working, events[0]).value, events[1..]);
      }
    }
  }
}
