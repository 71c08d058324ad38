/** When the ring has room: a request is refused only on account of a segment that has been live for almost a lap. */
module RingRoom {
  import opened RingBuffer
  import opened RingLap

  /** What happens to the places of the segments, their bytes aside: a request, or perhaps the key's own is given
    * back. */
  datatype Change = Request(key: nat, length: nat) | Release(key: nat)

  /** The same segments, whatever their bytes. */
  predicate SamePlaces(r: Ring, t: Ring)
  {
    t.head == r.head && t.index == r.index && |t.mem| == |r.mem|
  }

  ghost predicate Changes(r: Ring, c: Change, t: Ring)
  {
    match c
    case Request(key, length) => SamePlaces(r.Allocated(key, length).0, t)
    case Release(key) =>
      t.head == r.head && (t.index == r.index || t.index == r.index - {key}) && |t.mem| == |r.mem|
  }

  ghost predicate IsRun(rings: seq<Ring>, changes: seq<Change>)
  {
    && |rings| == |changes| + 1 && rings[0].index == map[]
    && (forall i :: 0 <= i < |rings| ==> rings[i].Valid())
    && (forall i :: 0 <= i < |changes| ==> Changes(rings[i], changes[i], rings[i + 1]))
  }

  ghost function GrantedTo(r: Ring, c: Change): nat
  {
    if c.Request? && r.Allocated(c.key, c.length).1.Some? then Align8(c.length) else 0
  }

  /** The bytes granted from the last grant to `key` on, itself included. */
  ghost function TakenSince(rings: seq<Ring>, changes: seq<Change>, i: nat, key: nat): nat
    requires IsRun(rings, changes) && i < |rings|
  {
    if i == 0 then 0
    else
      var granted := GrantedTo(rings[i - 1], changes[i - 1]);
      if granted > 0 && changes[i - 1].key == key then granted
      else granted + TakenSince(rings, changes, i - 1, key)
  }

  /** The write position is as far beyond the segment's beginning as was taken since, or has wrapped around; then no
    * more than one request's bytes were left over at the end of the buffer. */
  predicate Behind(r: Ring, s: Segment, taken: nat, most: nat)
  {
    || (s.End() <= r.head && taken >= r.head - s.offset)
    || (r.head <= s.offset && taken + most >= |r.mem| - s.offset + r.head)
  }

  /** A grant that leaves a segment alone moves the write position on, behind it or in front of it. */
  lemma OtherGranted(r: Ring, key: nat, taken: nat, most: nat, k: nat, length: nat)
    requires r.Valid() && key in r.index && k != key && Align8(length) <= most && r.Allocated(k, length).1.Some?
    requires Behind(r, r.index[key], taken, most)
    ensures var t := r.Allocated(k, length).0;
            key in t.index && t.index[key] == r.index[key] && Behind(t, t.index[key], taken + Align8(length), most)
  {
    hide Ring.Allocated, SumLengths, WellPlaced, Ring.Contents;
    GrantedState(r, k, length);
    GrantedBeside(r, key, k, length);
    Placed(r, key);
  }

  lemma OwnGranted(r: Ring, k: nat, length: nat, most: nat)
    requires r.Valid() && r.Allocated(k, length).1.Some?
    ensures var t := r.Allocated(k, length).0; k in t.index && Behind(t, t.index[k], Align8(length), most)
  {
    hide Ring.Allocated, SumLengths, WellPlaced, Ring.Contents;
    GrantedState(r, k, length);
    AllocateGrants(r, k, length);
  }

  /** Any other change leaves the write position and the segments that stay where they were. */
  lemma NothingGranted(r: Ring, c: Change, t: Ring, k: nat)
    requires r.Valid() && Changes(r, c, t) && GrantedTo(r, c) == 0 && k in t.index
    ensures k in r.index && t.index[k] == r.index[k] && t.head == r.head && |t.mem| == |r.mem|
  {
    hide SumLengths, WellPlaced, Ring.Contents, FreeAt;
    if c.Request? {
      RefusedOr(r, c.key, c.length);
      AllocateRefuses(r, c.key, c.length);
    }
  }

  lemma GrantedOther(r: Ring, c: Change, t: Ring, k: nat)
    requires Changes(r, c, t) && GrantedTo(r, c) > 0 && k in t.index && k != c.key
    ensures k in r.index
  {
  }

  lemma ChangeBehind(r: Ring, c: Change, t: Ring, k: nat, taken: nat, most: nat)
    requires r.Valid() && Changes(r, c, t) && (c.Request? ==> Align8(c.length) <= most) && k in t.index
    requires k in r.index ==> Behind(r, r.index[k], taken, most)
    ensures var granted := GrantedTo(r, c);
            Behind(t, t.index[k], if granted > 0 && c.key == k then granted else granted + taken, most)
  {
    hide Ring.Allocated, Ring.Valid, Ring.Contents, Align8;
    if GrantedTo(r, c) == 0 {
      NothingGranted(r, c, t, k);
    } else if c.key == k {
      AllocateGrants(r, k, c.length);
      OwnGranted(r, k, c.length, most);
    } else {
      GrantedOther(r, c, t, k);
      OtherGranted(r, k, taken, most, c.key, c.length);
    }
  }

  predicate Modest(changes: seq<Change>, most: nat)
  {
    forall i :: 0 <= i < |changes| && changes[i].Request? ==> Align8(changes[i].length) <= most
  }

  lemma {:induction false} AllBehind(rings: seq<Ring>, changes: seq<Change>, i: nat, k: nat, most: nat)
    requires IsRun(rings, changes) && Modest(changes, most) && i < |rings| && k in rings[i].index
    ensures Behind(rings[i], rings[i].index[k], TakenSince(rings, changes, i, k), most)
  {
    hide Ring.Allocated, Ring.Valid, Ring.Contents, Behind, Align8, Changes;
    if i > 0 {
      if k in rings[i - 1].index {
        AllBehind(rings, changes, i - 1, k, most);
      }
      ChangeBehind(rings[i - 1], changes[i - 1], rings[i], k, TakenSince(rings, changes, i - 1, k), most);
    }
  }

  /** A segment in the way of a request is almost a lap old. */
  lemma InTheWayIsOld(r: Ring, s: Segment, taken: nat, most: nat, place: Segment)
    requires Behind(r, s, taken, most) && 0 < place.length <= most && place == r.NextPlace(place.length)
    requires Overlap(s, place)
    ensures taken + 2 * most > |r.mem|
  {
  }

  /** In any run that begins with an empty ring: a request is granted if what was taken since the oldest of the other
    * live segments, itself included, is at most the buffer less two of the largest requests. So the ring goes round
    * and round as long as segments are given back within that distance. */
  lemma RoomForTheYoung(rings: seq<Ring>, changes: seq<Change>, i: nat, most: nat, key: nat, length: nat)
    requires IsRun(rings, changes) && Modest(changes, most) && i < |rings|
    requires 0 < Align8(length) <= most <= |rings[i].mem|
    requires forall k :: k in rings[i].index && k != key ==>
               TakenSince(rings, changes, i, k) + 2 * most <= |rings[i].mem|
    ensures rings[i].Allocated(key, length).1.Some?
  {
    hide IsRun, Modest, Ring.Allocated, Behind, Align8;
    var r, place := rings[i], rings[i].NextPlace(Align8(length));
    forall k | k in r.index && k != key
      ensures !Overlap(r.index[k], place)
    {
      if Overlap(r.index[k], place) {
        AllBehind(rings, changes, i, k, most);
        InTheWayIsOld(r, r.index[k], TakenSince(rings, changes, i, k), most, place);
      }
    }
    AllocateSucceeds(r, key, length);
  }

  /** Every operation of the ring is such a change. */
  lemma OperationChanges(r: Ring, op: Op)
    requires r.Valid()
    ensures Changes(r, if op.Allocate? then Request(op.key, op.length) else Release(op.key), Do(r, op))
  {
    hide SumLengths, WellPlaced, Ring.Contents, FreeAt, Align8;
    match op {
      case Allocate(_, _) =>
      case Fill(k, segOffset, data) => FillKeeps(r, k, segOffset, data);
      case Erase(k) => if k !in r.index { assert r.index - {k} == r.index; }
    }
  }
}
