/** The variable-length ring allocator in which the agent rebuilds fragmented events. */
module RingBuffer {
  import opened Bytes
  import opened Wrappers

  datatype Segment = Segment(offset: nat, length: nat) {
    function End(): nat { offset + length }
  }

  type Index = map<nat, Segment>

  /** Rounds up to a multiple of eight in 64-bit arithmetic, so the largest sizes wrap to zero. */
  function Align8(value: nat): (r: nat)
    ensures r % 8 == 0
    ensures value + 7 < U64 ==> value <= r < value + 8
    ensures r == 0 <==> (value + 7) % U64 < 8
  {
    (value + 7) % U64 / 8 * 8
  }

  predicate Overlap(s: Segment, t: Segment)
  {
    s.offset < t.End() && t.offset < s.End()
  }

  /** Every live segment is non-empty, aligned and in bounds, and no two of them share a byte. */
  ghost predicate WellPlaced(index: Index, capacity: nat)
  {
    && (forall k :: k in index ==> index[k].length > 0 && index[k].offset % 8 == 0 && index[k].length % 8 == 0
                                   && index[k].End() <= capacity)
    && (forall k, l {:trigger Overlap(index[k], index[l])} ::
          k in index && l in index && k != l ==> !Overlap(index[k], index[l]))
  }

  ghost function SomeKey(index: Index): (k: nat)
    requires |index| > 0
    ensures k in index
  {
    var k :| k in index;
    k
  }

  ghost function SumLengths(index: Index): nat
    decreases |index|
  {
    if |index| == 0 then 0 else index[SomeKey(index)].length + SumLengths(index - {SomeKey(index)})
  }

  lemma DropTwice(index: Index, k: nat, l: nat)
    ensures index - {k} - {l} == index - {l} - {k}
  {
  }

  /** The sum does not depend on the order in which segments are taken. */
  lemma {:induction false} SumSplit(index: Index, k: nat)
    requires k in index
    ensures SumLengths(index) == index[k].length + SumLengths(index - {k})
    decreases |index|
  {
    var l := SomeKey(index);
    if l != k {
      SumSplit(index - {l}, k);
      SumSplit(index - {k}, l);
      DropTwice(index, k, l);
    }
  }

  lemma SumAdd(index: Index, k: nat, s: Segment)
    requires k !in index
    ensures SumLengths(index[k := s]) == s.length + SumLengths(index)
  {
    SumSplit(index[k := s], k);
    assert index[k := s] - {k} == index;
  }

  /** The live segments together never occupy more than the buffer has. */
  lemma {:induction false} UsedFits(index: Index, capacity: nat)
    requires WellPlaced(index, capacity)
    ensures SumLengths(index) <= capacity
    decreases |index|
  {
    hide WellPlaced;
    if |index| > 0 {
      var k := HighestKey(index);
      SumSplit(index, k);
      BelowHighest(index, capacity, k);
      UsedFits(index - {k}, index[k].offset);
    }
  }

  /** All other segments lie below the highest one. */
  lemma BelowHighest(index: Index, capacity: nat, k: nat)
    requires WellPlaced(index, capacity) && k in index && forall l :: l in index ==> index[l].offset <= index[k].offset
    ensures WellPlaced(index - {k}, index[k].offset) && index[k].End() <= capacity
  {
    forall l | l in index && l != k
      ensures index[l].End() <= index[k].offset
    {
      assert !Overlap(index[l], index[k]);
    }
  }

  lemma {:induction false} HighestKey(index: Index) returns (k: nat)
    requires |index| > 0
    ensures k in index && forall l :: l in index ==> index[l].offset <= index[k].offset
    decreases |index|
  {
    k := SomeKey(index);
    var rest := index - {k};
    assert forall l :: l in index <==> l == k || l in rest;
    assert index.Keys == rest.Keys + {k};
    if |rest| > 0 {
      var h := HighestKey(rest);
      if index[h].offset > index[k].offset {
        k := h;
      }
    } else {
      assert rest == map[];
    }
  }

  /** Each live key with the bytes of its segment. */
  ghost function View(index: Index, mem: bytes): (v: map<nat, bytes>)
    requires WellPlaced(index, |mem|)
  {
    map k | k in index :: mem[index[k].offset..index[k].End()]
  }

  lemma DropPlaced(index: Index, mem: bytes, key: nat)
    requires WellPlaced(index, |mem|)
    ensures WellPlaced(index - {key}, |mem|)
    ensures View(index - {key}, mem) == View(index, mem) - {key}
  {
  }

  ghost predicate FreeAt(index: Index, s: Segment)
  {
    forall k :: k in index ==> !Overlap(index[k], s)
  }

  lemma AddPlaced(index: Index, mem: bytes, key: nat, s: Segment)
    requires WellPlaced(index, |mem|) && key !in index
    requires s.length > 0 && s.offset % 8 == 0 && s.length % 8 == 0 && s.End() <= |mem| && FreeAt(index, s)
    ensures WellPlaced(index[key := s], |mem|)
    ensures View(index[key := s], mem) == View(index, mem)[key := mem[s.offset..s.End()]]
  {
  }

  lemma SpliceNone(mem: bytes, at: nat, data: bytes)
    requires at <= |mem| && data == []
    ensures Splice(mem, at, data) == mem
  {
  }

  /** Writing inside one segment is writing inside that key's bytes alone. */
  lemma FillPlaced(index: Index, mem: bytes, key: nat, segOffset: nat, data: bytes)
    requires WellPlaced(index, |mem|) && key in index && segOffset + |data| <= index[key].length
    ensures index[key].End() <= |mem|
    ensures View(index, Splice(mem, index[key].offset + segOffset, data))
         == View(index, mem)[key := Splice(View(index, mem)[key], segOffset, data)]
  {
    hide Splice, WellPlaced;
    InBounds(index, |mem|, key);
    var s := index[key];
    var after := Splice(mem, s.offset + segOffset, data);
    forall k | k in index && k != key
      ensures after[index[k].offset..index[k].End()] == mem[index[k].offset..index[k].End()]
    {
      OtherStays(index, mem, key, segOffset, data, k);
    }
    SpliceInside(mem, s.offset, s.End(), segOffset, data);
    SameView(index, mem, after, key, Splice(View(index, mem)[key], segOffset, data));
  }

  lemma InBounds(index: Index, capacity: nat, key: nat)
    requires WellPlaced(index, capacity) && key in index
    ensures forall k :: k in index ==> index[k].End() <= capacity
    ensures forall k :: k in index && k != key ==>
              index[k].End() <= index[key].offset || index[key].End() <= index[k].offset
  {
    forall k | k in index && k != key
      ensures index[k].End() <= index[key].offset || index[key].End() <= index[k].offset
    {
      assert !Overlap(index[k], index[key]);
    }
  }

  lemma OtherStays(index: Index, mem: bytes, key: nat, segOffset: nat, data: bytes, k: nat)
    requires WellPlaced(index, |mem|) && key in index && segOffset + |data| <= index[key].length
    requires k in index && k != key
    ensures index[key].End() <= |mem| && index[k].End() <= |mem|
    ensures Splice(mem, index[key].offset + segOffset, data)[index[k].offset..index[k].End()]
            == mem[index[k].offset..index[k].End()]
  {
    hide Splice, WellPlaced;
    InBounds(index, |mem|, key);
    if data == [] {
      SpliceNone(mem, index[key].offset + segOffset, data);
    } else {
      SpliceKeeps(mem, index[key].offset + segOffset, data, index[k].offset, index[k].End());
    }
  }

  lemma SameView(index: Index, mem: bytes, after: bytes, key: nat, own: bytes)
    requires WellPlaced(index, |mem|) && |after| == |mem| && key in index
    requires after[index[key].offset..index[key].End()] == own
    requires forall k :: k in index && k != key ==>
               after[index[k].offset..index[k].End()] == mem[index[k].offset..index[k].End()]
    ensures View(index, after) == View(index, mem)[key := own]
  {
    hide Overlap;
  }

  /** The allocator's whole state. */
  datatype Ring = Ring(mem: bytes, head: nat, used: nat, index: Index) {
    ghost predicate Valid()
    {
      && head % 8 == 0 && head <= |mem|
      && WellPlaced(index, |mem|)
      && used == SumLengths(index)
    }

    /** What callers see: a map from key to bytes. */
    ghost function Contents(): (v: map<nat, bytes>)
      requires Valid()
    {
      View(index, mem)
    }

    /** The place the next segment of `length` bytes would get. */
    function NextPlace(length: nat): Segment
    {
      Segment(if head + length > |mem| then 0 else head, length)
    }

    function Erased(key: nat): Ring
    {
      if key in index then
        this.(used := if used >= index[key].length then used - index[key].length else 0, index := index - {key})
      else this
    }

    ghost function Allocated(key: nat, length: nat): (Ring, Option<Segment>)
    {
      var aligned := Align8(length);
      if aligned == 0 || aligned > |mem| then (this, None) else
        var place := NextPlace(aligned);
        if !FreeAt(Erased(key).index, place) then (Erased(key), None) else
          (Ring(mem, if place.End() == |mem| then 0 else place.End(), Erased(key).used + aligned,
                Erased(key).index[key := place]), Some(place))
    }

    predicate CanFill(key: nat, segOffset: nat, data: bytes)
    {
      key in index && segOffset + |data| <= index[key].length
    }

    function Filled(key: nat, segOffset: nat, data: bytes): Ring
    {
      if CanFill(key, segOffset, data) && index[key].End() <= |mem| then
        this.(mem := Splice(mem, index[key].offset + segOffset, data))
      else this
    }
  }

  /** Erasing removes one key and its bytes from the account, and nothing else. */
  lemma EraseKeeps(r: Ring, key: nat)
    requires r.Valid()
    ensures r.Erased(key).Valid()
    ensures r.Erased(key).Contents() == r.Contents() - {key}
  {
    if key in r.index {
      DropPlaced(r.index, r.mem, key);
      SumSplit(r.index, key);
    } else {
      assert r.Contents() - {key} == r.Contents();
    }
  }

  lemma FreeAfterErase(r: Ring, key: nat, place: Segment)
    ensures FreeAt(r.Erased(key).index, place)
       <==> forall k :: k in r.index && k != key ==> !Overlap(r.index[k], place)
  {
    var e := r.Erased(key).index;
    assert forall k :: k in e <==> k in r.index && k != key;
    assert forall k :: k in e ==> e[k] == r.index[k];
  }

  /** A request succeeds exactly when it has a size that can fit and the chosen place is free of all
    * other keys. */
  lemma AllocateSucceeds(r: Ring, key: nat, length: nat)
    ensures r.Allocated(key, length).1.Some?
       <==> 0 < Align8(length) <= |r.mem|
            && forall k :: k in r.index && k != key ==> !Overlap(r.index[k], r.NextPlace(Align8(length)))
  {
    FreeAfterErase(r, key, r.NextPlace(Align8(length)));
  }

  /** A granted request adds one segment of the rounded size and changes no other key's bytes. */
  lemma AllocateGrants(r: Ring, key: nat, length: nat)
    requires r.Valid() && r.Allocated(key, length).1.Some?
    ensures var r' := r.Allocated(key, length).0;
            var place := r.NextPlace(Align8(length));
            && r'.Valid() && r'.mem == r.mem && place.End() <= |r.mem|
            && r'.Contents() == (r.Contents() - {key})[key := r.mem[place.offset..place.End()]]
  {
    hide SumLengths;
    var e := r.Erased(key);
    var place := r.NextPlace(Align8(length));
    assert e.Valid() && e.Contents() == r.Contents() - {key} by {
      EraseKeeps(r, key);
    }
    GrantPlaced(e, key, place);
  }

  lemma GrantPlaced(e: Ring, key: nat, place: Segment)
    requires e.Valid() && key !in e.index && FreeAt(e.index, place)
    requires place.length > 0 && place.length % 8 == 0 && place.offset % 8 == 0 && place.End() <= |e.mem|
    ensures var r' := Ring(e.mem, if place.End() == |e.mem| then 0
                                  else place.End(), e.used + place.length, e.index[key := place]);
            r'.Valid() && r'.Contents() == e.Contents()[key := e.mem[place.offset..place.End()]]
  {
    hide SumLengths, WellPlaced, View, FreeAt;
    assert e.used == SumLengths(e.index);
    SumAdd(e.index, key, place);
    AddPlaced(e.index, e.mem, key, place);
  }

  /** A refused request evicts no other key: either nothing changes or the key's own old bytes go. */
  lemma AllocateRefuses(r: Ring, key: nat, length: nat)
    requires r.Valid() && r.Allocated(key, length).1.None?
    ensures var r' := r.Allocated(key, length).0;
            && r'.Valid() && r'.mem == r.mem && r'.head == r.head
            && r'.Contents() == if 0 < Align8(length) <= |r.mem| then r.Contents() - {key} else r.Contents()
  {
    EraseKeeps(r, key);
  }

  /** Filling writes inside one key's bytes; every byte of the buffer outside the range stays. */
  lemma FillKeeps(r: Ring, key: nat, segOffset: nat, data: bytes)
    requires r.Valid()
    ensures r.Filled(key, segOffset, data).Valid()
    ensures r.Filled(key, segOffset, data).Contents()
         == if r.CanFill(key, segOffset, data)
            then r.Contents()[key := Splice(r.Contents()[key], segOffset, data)] else r.Contents()
  {
    hide SumLengths, WellPlaced, View, Splice;
    if r.CanFill(key, segOffset, data) {
      FillPlaced(r.index, r.mem, key, segOffset, data);
    }
  }

  /** In every state reached by valid steps the account is exact and within the buffer. */
  lemma UsedWithinCapacity(r: Ring)
    requires r.Valid()
    ensures r.used == SumLengths(r.index) <= |r.mem|
  {
    UsedFits(r.index, |r.mem|);
  }

  class VarlenRingBuffer {
    var buffer: array<byte>
    var head: nat
    var usedBytes: nat
    var index: Index

    ghost function State(): Ring
      reads this, buffer
    {
      Ring(buffer[..], head, usedBytes, index)
    }

    constructor (capacity: nat)
      ensures State().Valid() && fresh(buffer) && buffer.Length == capacity
      ensures State().Contents() == map[] && usedBytes == 0
    {
      buffer := new byte[capacity](_ => 0);
      head, usedBytes, index := 0, 0, map[];
    }

    method OverlapsUsed(place: Segment) returns (hit: bool)
      ensures hit <==> !FreeAt(index, place)
    {
      var left := index.Keys;
      while left != {}
        invariant left <= index.Keys
        invariant forall k :: k in index && k !in left ==> !Overlap(index[k], place)
        decreases |left|
      {
        var k :| k in left;
        if Overlap(index[k], place) {
          return true;
        }
        left := left - {k};
      }
      return false;
    }

    method Allocate(key: nat, length: nat) returns (place: Option<Segment>)
      requires State().Valid()
      modifies this
      ensures buffer == old(buffer)
      ensures (State(), place) == old(State()).Allocated(key, length)
    {
      hide SumLengths, WellPlaced, View, FreeAt, Align8;
      var aligned := Align8(length);
      if aligned == 0 || aligned > buffer.Length {
        return None;
      }
      var _ := Erase(key);
      var next := Segment(if head + aligned > buffer.Length then 0 else head, aligned);
      var hit := OverlapsUsed(next);
      if hit {
        return None;
      }
      Take(key, next);
      return Some(next);
    }

    method Take(key: nat, place: Segment)
      modifies this
      ensures buffer == old(buffer)
      ensures State() == Ring(buffer[..], if place.End() == buffer.Length then 0 else place.End(),
                              old(usedBytes) + place.length, old(index)[key := place])
    {
      index := index[key := place];
      head := if place.End() == buffer.Length then 0 else place.End();
      usedBytes := usedBytes + place.length;
    }

    method Fill(key: nat, segOffset: nat, data: bytes) returns (ok: bool)
      requires State().Valid()
      modifies buffer
      ensures ok <==> State().CanFill(key, segOffset, data)
      ensures State() == old(State()).Filled(key, segOffset, data)
    {
      if key !in index || segOffset + |data| > index[key].length {
        return false;
      }
      CopyInto(index[key].offset + segOffset, data);
      return true;
    }

    method Find(key: nat) returns (segment: Option<bytes>)
      requires State().Valid()
      ensures segment == if key in State().Contents() then Some(State().Contents()[key]) else None
    {
      if key in index {
        segment := Some(buffer[..][index[key].offset..index[key].End()]);
      } else {
        segment := None;
      }
    }

    method CopyInto(at: nat, data: bytes)
      requires at + |data| <= buffer.Length
      modifies buffer
      ensures buffer[..] == Splice(old(buffer[..]), at, data)
    {
      forall i | 0 <= i < |data| {
        buffer[at + i] := data[i];
      }
      assert buffer[at..at + |data|] == data;
    }

    method Erase(key: nat) returns (found: bool)
      requires State().Valid()
      modifies this
      ensures buffer == old(buffer)
      ensures found <==> key in old(index)
      ensures State() == old(State()).Erased(key)
    {
      if key !in index {
        return false;
      }
      SumSplit(index, key);
      usedBytes := usedBytes - index[key].length;
      index := index - {key};
      return true;
    }

    /** Drops everything and tells how many keys were live. */
    method Clear() returns (count: nat)
      requires State().Valid()
      modifies this
      ensures buffer == old(buffer)
      ensures count == |old(State()).Contents()|
      ensures State() == old(State()).(index := map[], used := 0) && State().Valid()
    {
      assert State().Contents().Keys == index.Keys;
      assert |State().Contents().Keys| == |index.Keys|;
      count := |index|;
      index := map[];
      usedBytes := 0;
    }
  }
}
