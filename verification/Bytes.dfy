/** Raw memory: byte sequences, little-endian fields and in-place copies. */
module Bytes {

  type byte = b: int | 0 <= b < 256
  type bytes = seq<byte>

  const U32: nat := 0x1_0000_0000
  const U64: nat := 0x1_0000_0000_0000_0000

  /** The number stored in `s`, least significant byte first. */
  function FromLE(s: bytes): (v: nat)
  {
    if s == [] then 0 else s[0] + 256 * FromLE(s[1..])
  }

  /** The `n` low bytes of `v`; higher bytes are cut off, as a C store does. */
  function ToLE(v: nat, n: nat): (s: bytes)
    ensures |s| == n
  {
    if n == 0 then [] else [v % 256] + ToLE(v / 256, n - 1)
  }

  function Pow256(n: nat): (p: nat)
    ensures p >= 1
  {
    if n == 0 then 1 else 256 * Pow256(n - 1)
  }

  /** A store of a value that fits, followed by a load, gives the value back. */
  lemma {:induction false} StoreLoad(v: nat, n: nat)
    requires v < Pow256(n)
    ensures FromLE(ToLE(v, n)) == v
  {
    if n > 0 {
      StoreLoad(v / 256, n - 1);
      assert ToLE(v, n)[1..] == ToLE(v / 256, n - 1);
    }
  }

  lemma {:induction false} LoadBound(s: bytes)
    ensures FromLE(s) < Pow256(|s|)
  {
    if s != [] {
      LoadBound(s[1..]);
    }
  }

  /** The `n`-byte field of `s` at `off`. */
  function Field(s: bytes, off: nat, n: nat): (v: nat)
    requires off + n <= |s|
  {
    FromLE(s[off..off + n])
  }

  /** `s` after `d` has been copied over it at `off`. */
  function Splice(s: bytes, off: nat, d: bytes): (r: bytes)
    requires off + |d| <= |s|
    ensures |r| == |s|
  {
    s[..off] + d + s[off + |d|..]
  }

  /** `s` after the `n`-byte field at `off` has been set to `v`. */
  function Put(s: bytes, off: nat, n: nat, v: nat): (r: bytes)
    requires off + n <= |s|
    ensures |r| == |s|
  {
    Splice(s, off, ToLE(v, n))
  }

  lemma SliceOfSlice<T>(s: seq<T>, from: nat, end: nat, lo: nat, hi: nat)
    requires from <= lo <= hi <= end <= |s|
    ensures s[from..end][lo - from..hi - from] == s[lo..hi]
  {
    var t := s[from..end];
    var u, v := t[lo - from..hi - from], s[lo..hi];
    forall i | 0 <= i < hi - lo
      ensures u[i] == v[i]
    {
      var k := lo - from + i;
      assert u[i] == t[k] && t[k] == s[from + k] && v[i] == s[lo + i];
    }
    assert |u| == |v|;
    assert u == v;
  }

  /** A copy inside a range is the copy in the range taken by itself. */
  lemma SpliceInside(s: bytes, from: nat, end: nat, off: nat, d: bytes)
    requires from <= end <= |s| && off + |d| <= end - from
    ensures Splice(s, from + off, d)[from..end] == Splice(s[from..end], off, d)
  {
    var after, part := Splice(s, from + off, d), Splice(s[from..end], off, d);
    forall i | 0 <= i < end - from
      ensures after[from + i] == part[i]
    {
    }
    SameSlice(after, part, from);
  }

  lemma SameSlice(s: bytes, t: bytes, from: nat)
    requires from + |t| <= |s| && forall i :: 0 <= i < |t| ==> s[from + i] == t[i]
    ensures s[from..from + |t|] == t
  {
  }

  /** Everything outside the copied range keeps its bytes. */
  lemma SpliceKeeps(s: bytes, off: nat, d: bytes, lo: nat, hi: nat)
    requires off + |d| <= |s| && lo <= hi <= |s|
    requires hi <= off || off + |d| <= lo
    ensures Splice(s, off, d)[lo..hi] == s[lo..hi]
  {
    assert forall i :: lo <= i < hi ==> Splice(s, off, d)[i] == s[i];
  }

  /** The copied range holds the copied bytes. */
  lemma SpliceHolds(s: bytes, off: nat, d: bytes)
    requires off + |d| <= |s|
    ensures Splice(s, off, d)[off..off + |d|] == d
  {
  }

  /** A copy right behind a known range extends that range. */
  lemma SpliceExtends(s: bytes, off: nat, d: bytes, lo: nat)
    requires off + |d| <= |s| && lo <= off
    ensures Splice(s, off, d)[lo..off + |d|] == s[lo..off] + d
  {
  }

  /** Read over write: the written field holds the value, every disjoint field is untouched. */
  lemma PutField(s: bytes, off: nat, n: nat, v: nat)
    requires off + n <= |s|
    requires v < Pow256(n)
    ensures Field(Put(s, off, n, v), off, n) == v
    ensures forall o: nat, m: nat {:trigger Field(Put(s, off, n, v), o, m)} ::
              o + m <= |s| && (o + m <= off || off + n <= o) ==> Field(Put(s, off, n, v), o, m) == Field(s, o, m)
  {
    StoreLoad(v, n);
    SpliceHolds(s, off, ToLE(v, n));
    forall o: nat, m: nat | o + m <= |s| && (o + m <= off || off + n <= o)
      ensures Field(Put(s, off, n, v), o, m) == Field(s, o, m)
    {
      SpliceKeeps(s, off, ToLE(v, n), o, o + m);
    }
  }

  /** The bytes of all parts, one after the other. */
  function Concat(parts: seq<bytes>): (r: bytes)
  {
    if parts == [] then [] else parts[0] + Concat(parts[1..])
  }

  lemma {:induction false} ConcatAppend(parts: seq<bytes>, last: bytes)
    ensures Concat(parts + [last]) == Concat(parts) + last
  {
    if parts == [] {
      assert parts + [last] == [last];
      assert [last][1..] == [];
      assert Concat([last]) == last + Concat([]);
    } else {
      assert (parts + [last])[1..] == parts[1..] + [last];
      ConcatAppend(parts[1..], last);
    }
  }
}
