/** The key under which an event is indexed: whose it is, and that different agents' never collide. */
module IndexKey {
  import opened Bytes
  import opened AuditRecord
  import opened Capture
  import opened Decimals
  import opened MongoSink
  import opened RoundTrip

  lemma NoDots(n: nat)
    ensures '.' !in Decimal(n)
  {
    hide Decimal;
    DecimalParses(n);
    forall i | 0 <= i < |Decimal(n)|
      ensures Decimal(n)[i] != '.'
    {
      assert IsDigit(Decimal(n)[i]);
    }
  }

  function ToDot(s: string): nat
  {
    if s == [] || s[0] == '.' then 0 else 1 + ToDot(s[1..])
  }

  lemma {:induction false} ToDotAfter(x: string, rest: string)
    requires '.' !in x && rest != [] && rest[0] == '.'
    ensures ToDot(x + rest) == |x|
  {
    if x == [] {
      assert x + rest == rest;
    } else {
      assert (x + rest)[1..] == x[1..] + rest;
      ToDotAfter(x[1..], rest);
    }
  }

  /** A text up to its first dot, and behind it, are determined. */
  lemma DotSplit(x: string, u: string, y: string, v: string)
    requires '.' !in x && '.' !in y && x + (['.'] + u) == y + (['.'] + v)
    ensures x == y && u == v
  {
    hide ToDot;
    ToDotAfter(x, ['.'] + u);
    ToDotAfter(y, ['.'] + v);
    PairsApart(x, ['.'] + u, y, ['.'] + v);
    PairsApart(['.'], u, ['.'], v);
  }

  lemma PairsApart(x: string, u: string, y: string, v: string)
    requires |x| == |y| && x + u == y + v
    ensures x == y && u == v
  {
    assert x == (x + u)[..|x|] && y == (y + v)[..|y|];
    assert u == (x + u)[|x|..] && v == (y + v)[|y|..];
  }

  lemma FourBytes(ip: nat)
    requires ip < U32
    ensures ip == ip / 0x100_0000 % 256 * 0x100_0000 + ip / 0x1_0000 % 256 * 0x1_0000
                + ip / 0x100 % 256 * 0x100 + ip % 256
  {
    var q1, b0 := ip / 0x100, ip % 0x100;
    var q2, b1 := q1 / 0x100, q1 % 0x100;
    var q3, b2 := q2 / 0x100, q2 % 0x100;
    assert ip == q2 * 0x1_0000 + (b1 * 0x100 + b0) && ip == q3 * 0x100_0000 + (b2 * 0x1_0000 + b1 * 0x100 + b0);
    assert ip / 0x1_0000 == q2;
    assert ip / 0x100_0000 == q3;
  }

  /** Different addresses have different texts. */
  lemma QuadInjective(a: nat, b: nat)
    requires a < U32 && b < U32 && Quad(a) == Quad(b)
    ensures a == b
  {
    hide Decimal;
    var (a3, a2, a1, a0) := (a / 0x100_0000 % 256, a / 0x1_0000 % 256, a / 0x100 % 256, a % 256);
    var (b3, b2, b1, b0) := (b / 0x100_0000 % 256, b / 0x1_0000 % 256, b / 0x100 % 256, b % 256);
    QuadIsList(a);
    QuadIsList(b);
    DottedInjective([a3, a2, a1, a0], [b3, b2, b1, b0]);
    assert [a3, a2, a1, a0][0] == a3 && [a3, a2, a1, a0][1] == a2 && [a3, a2, a1, a0][2] == a1;
    FourBytes(a);
    FourBytes(b);
  }

  /** Numbers separated by dots. */
  function Dotted(ns: seq<nat>): string
    requires ns != []
  {
    if |ns| == 1 then Decimal(ns[0]) else Decimal(ns[0]) + (['.'] + Dotted(ns[1..]))
  }

  lemma QuadIsList(ip: nat)
    requires ip < U32
    ensures Quad(ip) == Dotted([ip / 0x100_0000 % 256, ip / 0x1_0000 % 256, ip / 0x100 % 256, ip % 256])
  {
    hide Decimal;
    Nested(ip / 0x100_0000 % 256, ip / 0x1_0000 % 256, ip / 0x100 % 256, ip % 256);
  }

  lemma Nested(n3: nat, n2: nat, n1: nat, n0: nat)
    ensures Dotted([n3, n2, n1, n0]) == Decimal(n3) + "." + Decimal(n2) + "." + Decimal(n1) + "." + Decimal(n0)
  {
    hide Decimal, Dotted;
    Unfolded([n3, n2, n1, n0]);
    Unfolded([n2, n1, n0]);
    Unfolded([n1, n0]);
    Unfolded([n0]);
    assert [n3, n2, n1, n0][1..] == [n2, n1, n0] && [n2, n1, n0][1..] == [n1, n0] && [n1, n0][1..] == [n0];
    Regroup(Decimal(n3), Decimal(n2), Dotted([n1, n0]));
    Regroup(Decimal(n3) + "." + Decimal(n2), Decimal(n1), Decimal(n0));
  }

  lemma Unfolded(ns: seq<nat>)
    requires ns != []
    ensures Dotted(ns) == if |ns| == 1 then Decimal(ns[0]) else Decimal(ns[0]) + (['.'] + Dotted(ns[1..]))
  {
  }

  lemma Regroup(x: string, y: string, z: string)
    ensures x + (['.'] + (y + (['.'] + z))) == x + "." + y + (['.'] + z)
    ensures x + (['.'] + (y + (['.'] + z))) == x + "." + y + "." + z
    ensures x + (['.'] + y) == x + "." + y
  {
  }

  /** The first of several numbers separated by dots, and the rest. */
  lemma SameHead(a: nat, u: string, b: nat, v: string)
    requires Decimal(a) + (['.'] + u) == Decimal(b) + (['.'] + v)
    ensures a == b && u == v
  {
    hide Decimal;
    NoDots(a);
    NoDots(b);
    DotSplit(Decimal(a), u, Decimal(b), v);
    DecimalInjective(a, b);
  }

  lemma {:induction false} DottedInjective(a: seq<nat>, b: seq<nat>)
    requires |a| == |b| > 0 && Dotted(a) == Dotted(b)
    ensures a == b
  {
    hide Decimal;
    if |a| == 1 {
      DecimalInjective(a[0], b[0]);
    } else {
      SameHead(a[0], Dotted(a[1..]), b[0], Dotted(b[1..]));
      DottedInjective(a[1..], b[1..]);
      assert a == [a[0]] + a[1..] && b == [b[0]] + b[1..];
    }
  }

  /** `fill_ob_addr_ipv4`: version four, the address with its first byte highest, zeros. */
  function Ipv4Field(ip: nat): (field: bytes)
    ensures |field| == MAX_IP_LEN
  {
    ToLE(4, 4) + ToLE(ip, 4) + seq(16, i => 0)
  }

  /** An agent's events are indexed under the text of its address, or under the text of its uploads if it has none. */
  lemma AddressOf(ip: nat, requestIp: string)
    requires ip < U32
    ensures AddressText(Ipv4Field(ip), requestIp) == if ip == 0 then requestIp else Quad(ip)
  {
    hide ToLE, FromLE, Quad, Pow256;
    PowerValues();
    var field := Ipv4Field(ip);
    assert field[..4] == ToLE(4, 4) && field[4..8] == ToLE(ip, 4);
    StoreLoad(4, 4);
    StoreLoad(ip, 4);
  }

  /** So agents with different addresses are indexed apart, whatever text their uploads carry. */
  lemma AddressesApart(a: nat, b: nat, textA: string, textB: string)
    requires 0 < a < U32 && 0 < b < U32 && AddressText(Ipv4Field(a), textA) == AddressText(Ipv4Field(b), textB)
    ensures a == b
  {
    hide Ipv4Field, AddressText, Quad;
    AddressOf(a, textA);
    AddressOf(b, textB);
    QuadInjective(a, b);
  }

  lemma SmallDecimals()
    ensures Decimal(10) == "10" && Decimal(0) == "0" && Decimal(1) == "1" && Decimal(2) == "2"
  {
  }

  /** The first byte of an address comes first in its text. */
  lemma QuadReads()
    ensures Quad(0x0A00_0102) == "10.0.1.2"
  {
    hide Decimal;
    SmallDecimals();
    assert Quad(0x0A00_0102) == Decimal(10) + "." + Decimal(0) + "." + Decimal(1) + "." + Decimal(2);
  }

  /** A whole event is indexed under the tenant in the call's own memory, the agent's address, and the call's
    * number; the record itself is what is stored. */
  lemma EventKey(out: bytes, e: bytes, call: AuditCall, ip: bytes, q: nat, n: nat, requestIp: string)
    requires call.Readable() && MainImage(e, call, q, n) && HasHeader(e) && WholeRecord(out, e, call, ip)
             && HasHeader(out)
    requires |ip| == MAX_IP_LEN
    ensures var d := DocOf(out, requestIp);
            && d.record == out
            && d.key == Key(Field(call.raw, OB_TENANT_ID, 8), AddressText(ip, requestIp), q)
  {
    hide FromLE, AddressText, ValidRecord, CompactSizeValid, HasFlag, Flags, RecordFlags, NextField, NameLengths;
    hide UserString.Text, Names, FirstSql, FirstParams, CapturedSql, CapturedParams;
    assert Field(out, EVENT_SEQ, 8) == Field(e, EVENT_SEQ, 8);
    SliceOfSlice(out, OB_RAW, OB_RAW + RAW_SIZE, OB_RAW + OB_TENANT_ID, OB_RAW + OB_TENANT_ID + 8);
  }
}
