/** The key range that discovery asks for, and which keys lie in it. */
module KeyRange {
  import opened Bytes

  /** The order of keys: byte by byte, a prefix first. */
  predicate Leq(a: bytes, b: bytes)
  {
    a == [] || (b != [] && (a[0] < b[0] || (a[0] == b[0] && Leq(a[1..], b[1..]))))
  }

  /** A range end of a single zero byte means no upper bound. */
  predicate InRange(key: bytes, start: bytes, end: bytes)
  {
    Leq(start, key) && (end == [0] || !Leq(end, key))
  }

  /** `prefix_end`: the last byte that is not 255 goes up by one, and what follows it goes away. */
  function PrefixEnd(prefix: bytes): (r: bytes)
    ensures r != []
  {
    if prefix == [] then [0] else
      var n := |prefix| - 1;
      if prefix[n] != 255 then prefix[..n] + [prefix[n] + 1] else PrefixEnd(prefix[..n])
  }

  method FindPrefixEnd(prefix: bytes) returns (end: bytes)
    ensures end == PrefixEnd(prefix)
  {
    var i := |prefix|;
    assert prefix[..i] == prefix;
    while i > 0
      invariant i <= |prefix| && PrefixEnd(prefix[..i]) == PrefixEnd(prefix)
    {
      i := i - 1;
      assert prefix[..i + 1][..i] == prefix[..i];
      if prefix[i] != 255 {
        return prefix[..i] + [prefix[i] + 1];
      }
    }
    return [0];
  }

  predicate AllHigh(s: bytes)
  {
    forall i :: 0 <= i < |s| ==> s[i] == 255
  }

  lemma {:induction false} HighEnd(s: bytes)
    ensures PrefixEnd(s) == [0] <==> AllHigh(s)
  {
    if s != [] {
      var n := |s| - 1;
      HighEnd(s[..n]);
      if s[n] != 255 {
        assert PrefixEnd(s)[n] == s[n] + 1;
      }
    }
  }

  /** The range end seen from the front. */
  lemma {:induction false} EndFromFront(x: byte, rest: bytes)
    ensures PrefixEnd([x] + rest) == if !AllHigh(rest) then [x] + PrefixEnd(rest) else if x != 255 then [x + 1] else [0]
    decreases |rest|
  {
    var p := [x] + rest;
    if rest == [] {
      assert p == [x] && p[..0] == [];
    } else {
      var n := |rest| - 1;
      assert p[..n + 1] == [x] + rest[..n] && p[n + 1] == rest[n];
      if rest[n] == 255 {
        EndFromFront(x, rest[..n]);
      }
    }
  }

  /** Only what starts with them is not below bytes that are all 255. */
  lemma {:induction false} HighLeq(s: bytes, key: bytes)
    requires AllHigh(s)
    ensures Leq(s, key) <==> s <= key
  {
    if s != [] && key != [] {
      HighLeq(s[1..], key[1..]);
      PrefixStep(s, key);
    }
  }

  lemma PrefixStep(s: bytes, key: bytes)
    requires s != [] && key != []
    ensures s <= key <==> s[0] == key[0] && s[1..] <= key[1..]
  {
    if s[0] == key[0] && s[1..] <= key[1..] {
      assert s == [s[0]] + s[1..] && key == [key[0]] + key[1..];
    }
  }

  lemma HighCons(x: byte, rest: bytes)
    ensures AllHigh([x] + rest) <==> x == 255 && AllHigh(rest)
  {
    var s := [x] + rest;
    assert s[0] == x && forall i :: 0 <= i < |rest| ==> s[i + 1] == rest[i];
  }

  lemma OneByteLeq(s: bytes, key: bytes)
    requires |s| == 1 && key != []
    ensures Leq(s, key) <==> s[0] <= key[0]
  {
    assert s[1..] == [];
  }

  /** The range is exact: for every prefix and key, over all bytes. */
  lemma {:induction false} RangeExact(prefix: bytes, key: bytes)
    ensures InRange(key, prefix, PrefixEnd(prefix)) <==> prefix <= key
    decreases |prefix|
  {
    HighEnd(prefix);
    if AllHigh(prefix) {
      HighLeq(prefix, key);
    } else if key != [] {
      var x, rest := prefix[0], prefix[1..];
      assert prefix == [x] + rest;
      EndFromFront(x, rest);
      PrefixStep(prefix, key);
      HighEnd(rest);
      if AllHigh(rest) {
        HighLeq(rest, key[1..]);
        assert x != 255 by { HighCons(x, rest); }
        OneByteLeq(PrefixEnd(prefix), key);
      } else {
        RangeExact(rest, key[1..]);
        var end := PrefixEnd(prefix);
        assert end[1..] == PrefixEnd(rest);
      }
    }
  }

  const SLASH: byte := 47
  /** "/services/" */
  const ROOT: bytes := [47, 115, 101, 114, 118, 105, 99, 101, 115, 47]

  /** "audit-collector" */
  const DEFAULT_SERVICE: bytes := [97, 117, 100, 105, 116, 45, 99, 111, 108, 108, 101, 99, 116, 111, 114]

  /** An agent without a service name looks for the default service. */
  function Effective(service: bytes): bytes
  {
    if service == [] then DEFAULT_SERVICE else service
  }

  /** The key that a collector registers under. */
  function CollectorKey(service: bytes, id: bytes): bytes
  {
    ROOT + service + [SLASH] + id
  }

  function CollectorsPrefix(service: bytes): bytes
  {
    ROOT + Effective(service) + [SLASH]
  }

  /** With service names without slashes, discovery finds exactly the keys of its own service, which is the default
    * one for an empty name; keys of a service that is registered with an empty name are never found. */
  lemma OwnServiceOnly(mine: bytes, other: bytes, id: bytes)
    requires SLASH !in mine && SLASH !in other
    ensures InRange(CollectorKey(other, id), CollectorsPrefix(mine), PrefixEnd(CollectorsPrefix(mine))) <==>
              Effective(mine) == other
  {
    var prefix, key := CollectorsPrefix(mine), CollectorKey(other, id);
    RangeExact(prefix, key);
    assert SLASH !in Effective(mine);
    if prefix <= key {
      AfterRoot(Effective(mine), other, id);
    } else {
      assert key == ROOT + other + [SLASH] + id;
    }
  }

  function FirstSlash(s: bytes): nat
  {
    if s == [] || s[0] == SLASH then 0 else 1 + FirstSlash(s[1..])
  }

  lemma {:induction false} FirstSlashAfter(service: bytes, rest: bytes)
    requires SLASH !in service
    ensures FirstSlash(service + [SLASH] + rest) == |service|
  {
    if service == [] {
      assert service + [SLASH] + rest == [SLASH] + rest;
    } else {
      assert (service + [SLASH] + rest)[1..] == service[1..] + [SLASH] + rest;
      FirstSlashAfter(service[1..], rest);
    }
  }

  lemma AfterRoot(mine: bytes, other: bytes, id: bytes)
    requires SLASH !in mine && SLASH !in other && ROOT + mine + [SLASH] <= CollectorKey(other, id)
    ensures mine == other
  {
    var prefix := ROOT + mine + [SLASH];
    var tail := CollectorKey(other, id)[|ROOT|..];
    assert tail == other + [SLASH] + id;
    var n := |mine| + 1;
    assert CollectorKey(other, id)[..|ROOT| + n] == prefix;
    assert tail[..n] == mine + [SLASH] by {
      assert tail[..n] == CollectorKey(other, id)[..|ROOT| + n][|ROOT|..];
      assert prefix[|ROOT|..] == mine + [SLASH];
    }
    assert tail == mine + [SLASH] + tail[n..];
    FirstSlashAfter(mine, tail[n..]);
    FirstSlashAfter(other, id);
    assert mine == tail[..|mine|] == other;
  }
}
