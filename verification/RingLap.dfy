/** What a segment that is never erased does to the ring: the write position cannot pass it again. */
module RingLap {
  import opened Bytes
  import opened RingBuffer

  datatype Op = Allocate(key: nat, length: nat) | Fill(key: nat, segOffset: nat, data: bytes) | Erase(key: nat)

  ghost function Do(r: Ring, op: Op): Ring
  {
    match op
    case Allocate(key, length) => r.Allocated(key, length).0
    case Fill(key, segOffset, data) => r.Filled(key, segOffset, data)
    case Erase(key) => r.Erased(key)
  }

  ghost function GrantedBy(r: Ring, op: Op): nat
  {
    if op.Allocate? && r.Allocated(op.key, op.length).1.Some? then Align8(op.length) else 0
  }

  ghost function After(r: Ring, ops: seq<Op>): Ring
    decreases |ops|
  {
    if ops == [] then r else After(Do(r, ops[0]), ops[1..])
  }

  /** The bytes that a run of operations is granted, and the number of its grants. */
  ghost function Granted(r: Ring, ops: seq<Op>): nat
    decreases |ops|
  {
    if ops == [] then 0 else GrantedBy(r, ops[0]) + Granted(Do(r, ops[0]), ops[1..])
  }

  ghost function Grants(r: Ring, ops: seq<Op>): nat
    decreases |ops|
  {
    if ops == [] then 0 else (if GrantedBy(r, ops[0]) > 0 then 1 else 0) + Grants(Do(r, ops[0]), ops[1..])
  }

  /** No operation gives the key's segment up, and none asks for more than `most` bytes. */
  predicate Sparing(ops: seq<Op>, key: nat, most: nat)
  {
    forall i :: 0 <= i < |ops| ==> Spares(ops[i], key, most)
  }

  predicate Spares(op: Op, key: nat, most: nat)
  {
    (!op.Fill? ==> op.key != key) && (op.Allocate? ==> Align8(op.length) <= most)
  }

  /** The segment lies where any request would still have had room, and the write position is not inside it. */
  ghost predicate InTheWay(r: Ring, key: nat, most: nat)
  {
    && r.Valid() && key in r.index && r.index[key].offset + most <= |r.mem|
    && (r.head <= r.index[key].offset || r.index[key].End() <= r.head)
  }

  /** How far the write position has come since it left the end of the segment. */
  function Lap(r: Ring, key: nat): int
    requires key in r.index
  {
    if r.head > r.index[key].offset then r.head - r.index[key].End() else |r.mem| - r.index[key].End() + r.head
  }

  lemma LapEnds(r: Ring, key: nat, most: nat)
    requires InTheWay(r, key, most)
    ensures 0 <= Lap(r, key) <= |r.mem| - r.index[key].length
  {
    hide SumLengths;
    Placed(r, key);
  }

  lemma Placed(r: Ring, key: nat)
    requires r.Valid() && key in r.index
    ensures r.index[key].length > 0 && r.index[key].End() <= |r.mem| && r.head <= |r.mem|
  {
    hide SumLengths;
  }

  /** A granted request does not overlap the segment. */
  lemma GrantedBeside(r: Ring, key: nat, k: nat, length: nat)
    requires key in r.index && k != key && r.Allocated(k, length).1.Some?
    ensures var place, s := r.NextPlace(Align8(length)), r.index[key];
            0 < Align8(length) <= |r.mem| && (place.End() <= s.offset || s.End() <= place.offset)
  {
    AllocateSucceeds(r, k, length);
    assert !Overlap(r.index[key], r.NextPlace(Align8(length)));
  }

  lemma GrantedState(r: Ring, k: nat, length: nat)
    requires r.Allocated(k, length).1.Some?
    ensures var place, t := r.NextPlace(Align8(length)), r.Allocated(k, length).0;
            && t.head == (if place.End() == |r.mem| then 0 else place.End()) && t.mem == r.mem
            && t.index == r.Erased(k).index[k := place]
  {
    hide FreeAt;
  }

  /** A grant moves the write position on by what was granted, if not by more. */
  lemma GrantLaps(r: Ring, key: nat, most: nat, k: nat, length: nat)
    requires InTheWay(r, key, most) && k != key && Align8(length) <= most && r.Allocated(k, length).1.Some?
    ensures var t := r.Allocated(k, length).0;
            && InTheWay(t, key, most) && t.index[key] == r.index[key] && |t.mem| == |r.mem|
            && Lap(t, key) >= Lap(r, key) + Align8(length)
  {
    hide Ring.Allocated, SumLengths, WellPlaced, Ring.Contents;
    AllocateGrants(r, k, length);
    GrantedState(r, k, length);
    GrantedBeside(r, key, k, length);
    Placed(r, key);
  }

  lemma OtherLaps(r: Ring, key: nat, most: nat, op: Op)
    requires InTheWay(r, key, most) && Spares(op, key, most) && GrantedBy(r, op) == 0
    ensures var t := Do(r, op);
            && InTheWay(t, key, most) && t.index[key] == r.index[key] && |t.mem| == |r.mem| && t.head == r.head
  {
    hide SumLengths, WellPlaced, Ring.Contents, FreeAt, Align8;
    match op {
      case Allocate(k, length) =>
        RefusedOr(r, k, length);
        AllocateRefuses(r, k, length);
      case Fill(k, segOffset, data) => FillKeeps(r, k, segOffset, data);
      case Erase(k) => EraseKeeps(r, k);
    }
  }

  lemma RefusedOr(r: Ring, k: nat, length: nat)
    requires GrantedBy(r, Allocate(k, length)) == 0
    ensures r.Allocated(k, length).1.None?
  {
    AllocateSucceeds(r, k, length);
  }

  lemma OneLaps(r: Ring, key: nat, most: nat, op: Op)
    requires InTheWay(r, key, most) && Spares(op, key, most)
    ensures var t := Do(r, op);
            && InTheWay(t, key, most) && t.index[key] == r.index[key] && |t.mem| == |r.mem|
            && Lap(t, key) >= Lap(r, key) + GrantedBy(r, op)
  {
    hide InTheWay, Ring.Allocated, Lap, Align8, Ring.Filled, Ring.Erased;
    if GrantedBy(r, op) > 0 {
      GrantLaps(r, key, most, op.key, op.length);
    } else {
      OtherLaps(r, key, most, op);
      InPlace(r, key, most);
      InPlace(Do(r, op), key, most);
      SameLap(r, Do(r, op), key);
    }
  }

  lemma SameLap(r: Ring, t: Ring, key: nat)
    requires key in r.index && key in t.index && t.index[key] == r.index[key] && |t.mem| == |r.mem| && t.head == r.head
    ensures Lap(t, key) == Lap(r, key)
  {
  }

  lemma {:induction false} RunLaps(r: Ring, ops: seq<Op>, key: nat, most: nat)
    requires InTheWay(r, key, most) && Sparing(ops, key, most)
    ensures var t := After(r, ops);
            && InTheWay(t, key, most) && t.index[key] == r.index[key] && |t.mem| == |r.mem|
            && Lap(t, key) >= Lap(r, key) + Granted(r, ops)
    decreases |ops|
  {
    hide InTheWay, Do, GrantedBy, Lap, Spares;
    if ops != [] {
      OneLaps(r, key, most, ops[0]);
      RunLaps(Do(r, ops[0]), ops[1..], key, most);
    }
  }

  lemma {:induction false} GrantsOfEight(r: Ring, ops: seq<Op>)
    ensures 8 * Grants(r, ops) <= Granted(r, ops)
    decreases |ops|
  {
    hide Do, Ring.Allocated;
    if ops != [] {
      GrantsOfEight(Do(r, ops[0]), ops[1..]);
    }
  }

  /** A segment that stays is where it begins: the grant itself leaves the write position at its end. */
  lemma GrantStarts(r: Ring, key: nat, length: nat, most: nat)
    requires r.Valid() && r.Allocated(key, length).1.Some? && r.NextPlace(Align8(length)).offset + most <= |r.mem|
    ensures InTheWay(r.Allocated(key, length).0, key, most)
  {
    hide Ring.Allocated, SumLengths, WellPlaced, Ring.Contents;
    AllocateGrants(r, key, length);
    GrantedState(r, key, length);
  }

  /** A segment that is never given up is the end of the ring. Over any run of operations that spares it, however long
    * and however much of the rest is erased, all grants together fit into the rest of the buffer once: the buffer
    * is used for one lap and no more. There are at most an eighth of its size of them. From then on, and whenever it
    * is not granted what it asks for in front of the segment, a request is refused. */
  lemma OneLapOnly(r: Ring, ops: seq<Op>, key: nat, most: nat)
    requires InTheWay(r, key, most) && Sparing(ops, key, most)
    ensures Granted(r, ops) + r.index[key].length <= |r.mem| && 8 * Grants(r, ops) < |r.mem|
    ensures var t := After(r, ops);
            key in t.index && t.index[key] == r.index[key]
            && (forall k, length :: k != key && Align8(length) <= most && t.Allocated(k, length).1.Some? ==>
                  Granted(r, ops) + Align8(length) + r.index[key].length <= |r.mem|)
            && (forall k, length :: k != key && Align8(length) <= most && t.Allocated(k, length).1.Some? ==>
                  t.head <= t.index[key].offset ==> t.head + Align8(length) <= t.index[key].offset)
  {
    hide InTheWay, Lap, Align8, Ring.Allocated, After, Granted, Grants;
    RunLaps(r, ops, key, most);
    var t := After(r, ops);
    LapEnds(r, key, most);
    LapEnds(t, key, most);
    GrantsOfEight(r, ops);
    InPlace(r, key, most);
    InPlace(t, key, most);
    forall k, length | k != key && Align8(length) <= most && t.Allocated(k, length).1.Some?
      ensures Granted(r, ops) + Align8(length) + r.index[key].length <= |r.mem|
      ensures t.head <= t.index[key].offset ==> t.head + Align8(length) <= t.index[key].offset
    {
      GrantLaps(t, key, most, k, length);
      LapEnds(t.Allocated(k, length).0, key, most);
      InFront(t, key, most, k, length);
    }
  }

  lemma InPlace(r: Ring, key: nat, most: nat)
    requires InTheWay(r, key, most)
    ensures key in r.index && r.index[key].length > 0
  {
    Placed(r, key);
  }

  lemma InFront(r: Ring, key: nat, most: nat, k: nat, length: nat)
    requires InTheWay(r, key, most) && k != key && Align8(length) <= most && r.Allocated(k, length).1.Some?
    ensures r.head <= r.index[key].offset ==> r.head + Align8(length) <= r.index[key].offset
  {
    hide Ring.Allocated, SumLengths, WellPlaced;
    GrantedBeside(r, key, k, length);
    Placed(r, key);
  }
}
