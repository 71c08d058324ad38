/** The resolver's address list: deduplicated, sorted, and versioned. */
module AddressList {
  import opened Bytes
  import opened KeyRange

  predicate Strict(list: seq<bytes>)
  {
    forall i, j :: 0 <= i < j < |list| ==> Leq(list[i], list[j]) && list[i] != list[j]
  }

  predicate Unique(list: seq<bytes>)
  {
    forall i, j :: 0 <= i < j < |list| ==> list[i] != list[j]
  }

  function ToSet(list: seq<bytes>): set<bytes>
  {
    set a | a in list
  }

  lemma {:induction false} LeqTotal(a: bytes, b: bytes)
    ensures Leq(a, b) || Leq(b, a)
    ensures Leq(a, b) && Leq(b, a) ==> a == b
  {
    if a != [] && b != [] {
      LeqTotal(a[1..], b[1..]);
      assert a == [a[0]] + a[1..] && b == [b[0]] + b[1..];
    }
  }

  lemma {:induction false} LeqTrans(a: bytes, b: bytes, c: bytes)
    requires Leq(a, b) && Leq(b, c)
    ensures Leq(a, c)
  {
    if a != [] && a[0] == b[0] == c[0] {
      LeqTrans(a[1..], b[1..], c[1..]);
    }
  }

  function Insert(list: seq<bytes>, a: bytes): seq<bytes>
  {
    if list == [] || Leq(a, list[0]) then [a] + list else [list[0]] + Insert(list[1..], a)
  }

  /** `std::sort`. */
  function Sorted(list: seq<bytes>): seq<bytes>
  {
    if list == [] then [] else Insert(Sorted(list[1..]), list[0])
  }

  lemma {:induction false} InsertKeeps(list: seq<bytes>, a: bytes)
    requires Strict(list) && a !in list
    ensures Strict(Insert(list, a)) && (forall x :: x in Insert(list, a) <==> x in list || x == a)
  {
    if list != [] {
      LeqTotal(a, list[0]);
      if Leq(a, list[0]) {
        var r := [a] + list;
        forall i, j | 0 <= i < j < |r|
          ensures Leq(r[i], r[j]) && r[i] != r[j]
        {
          if i == 0 && j > 1 {
            LeqTrans(a, list[0], list[j - 1]);
          }
        }
      } else {
        InsertKeeps(list[1..], a);
        var rest := Insert(list[1..], a);
        var r := [list[0]] + rest;
        forall i, j | 0 <= i < j < |r|
          ensures Leq(r[i], r[j]) && r[i] != r[j]
        {
          if i == 0 {
            assert r[j] in rest;
            if r[j] != a {
              var k :| 0 <= k < |list[1..]| && list[1..][k] == r[j];
              assert list[k + 1] == r[j];
            }
          }
        }
        forall x
          ensures x in r <==> x in list || x == a
        {
          assert x in list <==> x == list[0] || x in list[1..];
        }
      }
    }
  }

  lemma {:induction false} SortedKeeps(list: seq<bytes>)
    requires Unique(list)
    ensures Strict(Sorted(list)) && (forall x :: x in Sorted(list) <==> x in list)
  {
    if list != [] {
      SortedKeeps(list[1..]);
      assert list[0] !in list[1..];
      InsertKeeps(Sorted(list[1..]), list[0]);
      assert forall x :: x in list <==> x == list[0] || x in list[1..];
    }
  }

  lemma HasMember(s: seq<bytes>)
    requires s != []
    ensures exists x :: x in s
  {
    assert s[0] in s;
  }

  /** There is one strictly sorted list of a set. */
  lemma {:induction false} StrictIsCanonical(a: seq<bytes>, b: seq<bytes>)
    requires Strict(a) && Strict(b) && forall x :: x in a <==> x in b
    ensures a == b
  {
    if a == [] {
      if b != [] {
        HasMember(b);
      }
    } else {
      assert a[0] in b && b != [] && b[0] in a;
      HeadLeast(a, b[0]);
      HeadLeast(b, a[0]);
      LeqTotal(a[0], b[0]);
      forall x
        ensures x in a[1..] <==> x in b[1..]
      {
        TailIn(a, x);
        TailIn(b, x);
      }
      StrictIsCanonical(a[1..], b[1..]);
      assert a == [a[0]] + a[1..] && b == [b[0]] + b[1..];
    }
  }

  lemma HeadLeast(s: seq<bytes>, x: bytes)
    requires Strict(s) && x in s
    ensures Leq(s[0], x)
  {
    LeqTotal(x, x);
  }

  lemma TailIn(s: seq<bytes>, x: bytes)
    requires Strict(s) && s != []
    ensures x in s[1..] <==> x in s && x != s[0]
  {
    if x in s && x != s[0] {
      var i :| 0 <= i < |s| && s[i] == x;
      assert s[1..][i - 1] == x;
    }
    if x in s[1..] {
      var i :| 0 <= i < |s[1..]| && s[1..][i] == x;
      assert s[i + 1] == x;
    }
  }

  /** The addresses of a range's entries, each once, in the order of the keys. */
  function Dedup(list: seq<bytes>): (r: seq<bytes>)
  {
    if list == [] then [] else
      var init := Dedup(list[..|list| - 1]);
      if list[|list| - 1] in init then init else init + [list[|list| - 1]]
  }

  lemma {:induction false} DedupKeeps(list: seq<bytes>)
    ensures Unique(Dedup(list)) && (forall x :: x in Dedup(list) <==> x in list)
  {
    if list != [] {
      var init := list[..|list| - 1];
      DedupKeeps(init);
      assert forall x :: x in list <==> x in init || x == list[|list| - 1];
    }
  }

  method CollectAddresses(entries: seq<bytes>) returns (next: seq<bytes>)
    ensures next == Dedup(entries)
  {
    next := [];
    for i := 0 to |entries|
      invariant next == Dedup(entries[..i])
    {
      assert entries[..i + 1][..i] == entries[..i];
      if entries[i] !in next {
        next := next + [entries[i]];
      }
    }
    assert entries[..|entries|] == entries;
  }

  class Resolver {
    var addresses: seq<bytes>
    var setVersion: nat

    ghost predicate Valid()
      reads this
    {
      Strict(addresses)
    }

    constructor ()
      ensures Valid() && addresses == [] && setVersion == 0
    {
      addresses, setVersion := [], 0;
    }

    /** `apply_new_set`. The list stays strictly sorted, holds exactly the new addresses, and its version
      * moves, by one, exactly when the set changes. */
    method ApplyNewSet(newList: seq<bytes>)
      requires Valid() && Unique(newList)
      modifies this
      ensures Valid() && ToSet(addresses) == ToSet(newList)
      ensures setVersion == old(setVersion) + (if ToSet(newList) == ToSet(old(addresses)) then 0 else 1)
      ensures ToSet(newList) == ToSet(old(addresses)) ==> addresses == old(addresses)
    {
      hide Strict, Unique, Sorted, Leq;
      var sorted := Sorted(newList);
      SortedKeeps(newList);
      if ToSet(newList) == ToSet(addresses) {
        SameMembers(newList, addresses);
        StrictIsCanonical(sorted, addresses);
      }
      SetOf(sorted, newList);
      if sorted == addresses {
        return;
      }
      addresses := sorted;
      setVersion := setVersion + 1;
    }
  }

  lemma SetOf(a: seq<bytes>, b: seq<bytes>)
    requires forall x :: x in a <==> x in b
    ensures ToSet(a) == ToSet(b)
  {
  }

  lemma SameMembers(a: seq<bytes>, b: seq<bytes>)
    requires ToSet(a) == ToSet(b)
    ensures forall x :: x in a <==> x in b
  {
    forall x
      ensures x in a <==> x in b
    {
      assert x in a <==> x in ToSet(a);
      assert x in b <==> x in ToSet(b);
    }
  }
}
