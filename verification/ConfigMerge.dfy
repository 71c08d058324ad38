/** Merging a configuration with its overrides, and what a lookup in the result means. */
module ConfigMerge {
  import opened Wrappers
  import opened SimpleYaml

  /** A dictionary store: an existing key keeps its place, a new one goes to the end. */
  function Set(entries: seq<Entry>, key: string, node: Node): seq<Entry>
  {
    if entries == [] then [Entry(key, node)]
    else if entries[0].key == key then [Entry(key, node)] + entries[1..]
    else [entries[0]] + Set(entries[1..], key, node)
  }

  /** What a key becomes: two mappings are merged, anything else is replaced. */
  function MergeNode(base: Option<Node>, node: Node): Node
    decreases node
  {
    if base.Some? && base.value.Mapping? && node.Mapping? then Mapping(Merge(base.value.entries, node.entries))
    else node
  }

  /** `deep_merge`. */
  function Merge(base: seq<Entry>, override: seq<Entry>): seq<Entry>
    decreases override
  {
    if override == [] then base else
      var e := override[0];
      Merge(Set(base, e.key, MergeNode(Lookup(base, e.key), e.node)), override[1..])
  }

  method DeepMerge(base: seq<Entry>, override: seq<Entry>) returns (result: seq<Entry>)
    ensures result == Merge(base, override)
    decreases override
  {
    result := base;
    for i := 0 to |override|
      invariant Merge(base, override) == Merge(result, override[i..])
    {
      assert override[i..][0] == override[i] && override[i..][1..] == override[i + 1..];
      var key, node := override[i].key, override[i].node;
      var had := Lookup(result, key);
      if had.Some? && had.value.Mapping? && node.Mapping? {
        var inner := DeepMerge(had.value.entries, node.entries);
        result := Set(result, key, Mapping(inner));
      } else {
        result := Set(result, key, node);
      }
    }
    assert override[|override|..] == [];
  }

  lemma {:induction false} LookupSet(entries: seq<Entry>, key: string, node: Node, k: string)
    ensures Lookup(Set(entries, key, node), k) == if k == key then Some(node) else Lookup(entries, k)
  {
    if entries != [] {
      var set' := Set(entries, key, node);
      if entries[0].key == key {
        assert set'[1..] == entries[1..];
      } else {
        LookupSet(entries[1..], key, node, k);
        assert set'[1..] == Set(entries[1..], key, node);
      }
    } else {
      assert [Entry(key, node)][1..] == [];
    }
  }

  lemma {:induction false} NoSuchKey(entries: seq<Entry>, key: string)
    requires forall i :: 0 <= i < |entries| ==> entries[i].key != key
    ensures Lookup(entries, key) == None
  {
    if entries != [] {
      NoSuchKey(entries[1..], key);
    }
  }

  /** One key of the result. */
  lemma {:induction false} LookupMerge(base: seq<Entry>, override: seq<Entry>, k: string)
    requires DistinctKeys(override)
    ensures Lookup(Merge(base, override), k)
            == match Lookup(override,
                            k) case None => Lookup(base, k) case Some(node) => Some(MergeNode(Lookup(base, k), node))
    decreases |override|
  {
    hide DistinctKeys, MergeNode, Set;
    if override != [] {
      var e, rest := override[0], override[1..];
      var node := MergeNode(Lookup(base, e.key), e.node);
      RestDistinct(override);
      LookupMerge(Set(base, e.key, node), rest, k);
      LookupSet(base, e.key, node, k);
      if k == e.key {
        NoSuchKey(rest, k);
      }
    }
  }

  /** The overrides hold a scalar where the path wants to go on. */
  predicate Blocked(node: Node, parts: seq<string>)
    decreases |parts|
  {
    parts != [] && (node.Scalar?
                    || (Lookup(node.entries, parts[0]).Some?
                        && Blocked(Lookup(node.entries, parts[0]).value, parts[1..])))
  }

  function Overlay(base: Option<Node>, override: Option<Node>): Option<Node>
  {
    match override
    case None => base
    case Some(node) => Some(MergeNode(base, node))
  }

  lemma {:induction false} LookupDistinct(entries: seq<Entry>, key: string)
    requires DistinctKeys(entries)
    ensures Lookup(entries, key).Some? && Lookup(entries, key).value.Mapping? ==>
              DistinctKeys(Lookup(entries, key).value.entries)
  {
    if entries != [] {
      RestDistinct(entries);
      LookupDistinct(entries[1..], key);
    }
  }

  /** Every path into the merged configuration: nothing where an overriding scalar cuts it off; otherwise what
    * the overrides hold there, laid over what the base holds there. */
  lemma {:induction false} GetMerged(base: Option<Node>, node: Node, parts: seq<string>)
    requires node.Mapping? ==> DistinctKeys(node.entries)
    ensures GetParts(MergeNode(base, node), parts)
            == if Blocked(node, parts) then None
               else Overlay(if base.Some? then GetParts(base.value, parts) else None, GetParts(node, parts))
    decreases |parts|
  {
    hide DistinctKeys;
    if parts != [] && node.Mapping? {
      var key, rest := parts[0], parts[1..];
      LookupDistinct(node.entries, key);
      if base.Some? && base.value.Mapping? {
        LookupMerge(base.value.entries, node.entries, key);
        var own := Lookup(node.entries, key);
        if own.Some? {
          GetMerged(Lookup(base.value.entries, key), own.value, rest);
        }
      } else {
        if Blocked(node, parts) {
          BlockedFindsNothing(node, parts);
        }
        OverNothing(GetParts(node, parts));
      }
    }
  }

  lemma OverNothing(node: Option<Node>)
    ensures Overlay(None, node) == node
  {
  }

  lemma {:induction false} BlockedFindsNothing(node: Node, parts: seq<string>)
    requires Blocked(node, parts)
    ensures GetParts(node, parts) == None
    decreases |parts|
  {
    if node.Mapping? {
      BlockedFindsNothing(Lookup(node.entries, parts[0]).value, parts[1..]);
    }
  }

  /** So a setting that the overrides give as a scalar wins, and one they do not mention stays. */
  lemma OverrideWins(base: seq<Entry>, override: seq<Entry>, path: string)
    requires DistinctKeys(override)
    ensures TextOf(GetPath(override, path)).Some? ==>
              TextOf(GetPath(Merge(base, override), path)) == TextOf(GetPath(override, path))
    ensures GetPath(override, path).None? && !Blocked(Mapping(override), Split(path)) ==>
              GetPath(Merge(base, override), path) == GetPath(base, path)
  {
    hide Split, DistinctKeys;
    var parts := Split(path);
    GetMerged(Some(Mapping(base)), Mapping(override), parts);
    if Blocked(Mapping(override), parts) {
      BlockedFindsNothing(Mapping(override), parts);
    }
  }
}
