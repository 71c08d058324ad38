/** Split and merge undo each other: what the probe cut into records, the agent submits whole. */
module RoundTrip {
  import opened Bytes
  import opened AuditRecord
  import opened Wrappers
  import opened Capture
  import opened Reassembly

  function CapturedSql(call: AuditCall): (r: bytes)
    requires call.Readable()
    ensures |r| <= CAPTURE_MAX
  {
    Cut(call.sql.Text(), CAPTURE_MAX)
  }

  function CapturedParams(call: AuditCall): (r: bytes)
    requires call.Readable()
    ensures |r| <= CAPTURE_MAX
  {
    Cut(call.params.Text(), CAPTURE_MAX)
  }

  /** The agent cuts a fragmented field's length to 32 bits before clamping it. That is harmless exactly
    * when it leaves the captured length as it is; every length below 2^32 fits. */
  predicate LengthFits(len: nat, first: nat)
  {
    len > first ==> Min(len % U32, CAPTURE_MAX) == Min(len, CAPTURE_MAX)
  }

  predicate LengthsFit(call: AuditCall)
    requires call.Readable()
  {
    LengthFits(|call.sql.Text()|, MAIN_SQL_MAX) && LengthFits(|call.params.Text()|, MAIN_PARAMS_MAX)
  }

  /** A call that does not fit the main record. */
  predicate LongCall(call: AuditCall)
    requires call.Readable()
  {
    LongSql(call) || LongParams(call)
  }

  /** Header fields that the agent does not rewrite on the way to the collector. */
  predicate KeptField(o: nat, m: nat)
  {
    && o + m <= PAYLOAD
    && (o + m <= TOTAL_SIZE || TOTAL_SIZE + 4 <= o)
    && (o + m <= RECORD_FLAGS || RECORD_FLAGS + 2 <= o)
    && (o + m <= SQL_PAYLOAD_LEN || PARAMS_PAYLOAD_LEN + 4 <= o)
    && (o + m <= SERVER_IP || SERVER_IP + MAX_IP_LEN <= o)
  }

  /** `out` is the whole event: the names, then each field up to the capture limit, under consistent
    * lengths; every other header field is as captured, and the agent's address is filled in. */
  ghost predicate WholeRecord(out: bytes, e: bytes, call: AuditCall, ip: bytes)
    requires call.Readable() && HasHeader(e)
  {
    var payload := Names(call) + CapturedSql(call) + CapturedParams(call);
    && |out| == PAYLOAD + |payload| && out[PAYLOAD..] == payload
    && Field(out, TOTAL_SIZE, 4) == |out|
    && Field(out, SQL_PAYLOAD_LEN, 4) == |CapturedSql(call)|
    && Field(out, PARAMS_PAYLOAD_LEN, 4) == |CapturedParams(call)|
    && HasFlag(Field(out, RECORD_FLAGS, 2), LOGICAL_COMPLETE)
    && (HasFlag(Field(out, RECORD_FLAGS, 2), PHYSICAL_COMPLETE) <==>
         HasFlag(Field(e, RECORD_FLAGS, 2), PHYSICAL_COMPLETE))
    && out[SERVER_IP..SERVER_IP + MAX_IP_LEN] == ip
    && out[OB_RAW..OB_RAW + RAW_SIZE] == call.raw
    && (forall o: nat, m: nat {:trigger Field(out, o, m)} :: KeptField(o, m) ==> Field(out, o, m) == Field(e, o, m))
    && ValidRecord(out) && CompactSizeValid(out)
  }

  /** A segment that holds the header, the names and the first bytes of both fields at their places. */
  ghost predicate Assembled(seg: bytes, e: bytes, call: AuditCall, sqlHave: nat, paramsHave: nat)
    requires call.Readable() && HasHeader(e)
  {
    var names, sql, params := Names(call), CapturedSql(call), CapturedParams(call);
    var sqlAt, paramsAt := PAYLOAD + |names|, PAYLOAD + |names| + |sql|;
    && sqlHave <= |sql| && paramsHave <= |params|
    && |seg| >= paramsAt + |params|
    && seg[..PAYLOAD] == e[..PAYLOAD]
    && seg[PAYLOAD..sqlAt] == names
    && seg[sqlAt..sqlAt + sqlHave] == sql[..sqlHave]
    && seg[paramsAt..paramsAt + paramsHave] == params[..paramsHave]
  }

  /** What the agent reads back from a main record. */
  lemma ImageSizes(e: bytes, call: AuditCall, q: nat, n: nat)
    requires call.Readable() && MainImage(e, call, q, n)
    ensures HasHeader(e) && PayloadInside(e) && CompactSizeValid(e)
            && Field(e, TOTAL_SIZE, 4) == PAYLOAD + PayloadSum(e)
    ensures Fragmented(e) <==> |call.sql.Text()| > MAIN_SQL_MAX || |call.params.Text()| > MAIN_PARAMS_MAX
    ensures FullSql(e) == if |call.sql.Text()| > MAIN_SQL_MAX then Min(|call.sql.Text()| % U32, CAPTURE_MAX)
                          else |call.sql.Text()|
    ensures FullParams(e) == if |call.params.Text()| > MAIN_PARAMS_MAX then
                               Min(|call.params.Text()| % U32, CAPTURE_MAX)
                             else |call.params.Text()|
    ensures NamesLen(e) == |Names(call)| && Field(e, SQL_PAYLOAD_LEN, 4) == |FirstSql(call)|
    ensures Field(e, PARAMS_PAYLOAD_LEN, 4) == |FirstParams(call)|
  {
    hide Field, Names, HasFlag, Flags, RecordFlags, NextField, NamesLen, NameLengths;
    FlagsTell(|call.sql.Text()|, |call.params.Text()|);
    NamesLenIs(e, call);
  }

  lemma ImagePieces(e: bytes, call: AuditCall, q: nat, n: nat)
    requires call.Readable() && MainImage(e, call, q, n)
    ensures var sqlAt, paramsAt := PAYLOAD + |Names(call)|, PAYLOAD + |Names(call)| + |FirstSql(call)|;
            && paramsAt + |FirstParams(call)| <= |e|
            && e[PAYLOAD..sqlAt] == Names(call)
            && e[sqlAt..paramsAt] == FirstSql(call)
            && e[paramsAt..paramsAt + |FirstParams(call)|] == FirstParams(call)
  {
    hide Field, Names, Cut;
    var payload := Names(call) + FirstSql(call) + FirstParams(call);
    var all := e[PAYLOAD..PAYLOAD + |payload|];
    assert all == payload;
    assert forall i :: 0 <= i < |payload| ==> e[PAYLOAD + i] == payload[i];
    var n1, n2 := |Names(call)|, |Names(call)| + |FirstSql(call)|;
    assert e[PAYLOAD..PAYLOAD + n1] == all[..n1];
    assert e[PAYLOAD + n1..PAYLOAD + n2] == all[n1..n2];
    assert e[PAYLOAD + n2..PAYLOAD + |payload|] == all[n2..];
  }

  lemma FirstPieces(call: AuditCall)
    requires call.Readable()
    ensures FirstSql(call) == CapturedSql(call)[..|FirstSql(call)|]
    ensures FirstParams(call) == CapturedParams(call)[..|FirstParams(call)|]
    ensures |FirstSql(call)| <= |CapturedSql(call)| && |FirstParams(call)| <= |CapturedParams(call)|
  {
  }

  /** The main record is laid out with both first pieces at their final places. */
  lemma MainAssembles(memory: bytes, e: bytes, call: AuditCall, q: nat, n: nat)
    requires call.Readable() && LengthsFit(call) && MainImage(e, call, q, n) && HasHeader(e)
    requires |memory| >= PAYLOAD && FullSize(e) <= |memory|
    ensures PayloadInside(e) && Assembled(StoreMain(memory, e), e, call, |FirstSql(call)|, |FirstParams(call)|)
    ensures FullSql(e) == |CapturedSql(call)| && FullParams(e) == |CapturedParams(call)|
  {
    hide MainImage, Field, Names, Cut, Splice, Fragmented, CompactSizeValid, FirstSql, FirstParams, StoreMain, NamesLen;
    hide CapturedSql, CapturedParams, FullSql, FullParams, LengthsFit, UserString.Text;
    var names, sql, params := Names(call), CapturedSql(call), CapturedParams(call);
    assert FullSql(e) == |sql| && FullParams(e) == |params| by {
      ImageSizes(e, call, q, n);
      FittingSizes(call);
    }
    ImageSizes(e, call, q, n);
    ImagePieces(e, call, q, n);
    FirstPieces(call);
    StoreMainIs(memory, e, names, FirstSql(call), FirstParams(call));
    FourSplices(memory, e[..PAYLOAD], names, FirstSql(call), FirstParams(call), PAYLOAD + |names| + |sql|);
  }

  lemma StoreMainIs(memory: bytes, e: bytes, names: bytes, first: bytes, last: bytes)
    requires HasHeader(e) && PayloadInside(e) && |memory| >= PAYLOAD && FullSize(e) <= |memory|
    requires NamesLen(e) == |names| && Field(e, SQL_PAYLOAD_LEN, 4) == |first|
             && Field(e, PARAMS_PAYLOAD_LEN, 4) == |last|
    requires var sqlAt, lastAt := PAYLOAD + |names|, PAYLOAD + |names| + |first|;
             e[PAYLOAD..sqlAt] == names && e[sqlAt..lastAt] == first && e[lastAt..lastAt + |last|] == last
    requires |first| <= FullSql(e) && |last| <= FullParams(e)
    ensures StoreMain(memory, e)
         == Splice(Splice(Splice(Splice(memory, 0, e[..PAYLOAD]), PAYLOAD, names), PAYLOAD + |names|, first),
                   PAYLOAD + |names| + FullSql(e), last)
  {
    hide Field, Splice, FullSql, FullParams;
  }

  lemma FourSplices(memory: bytes, header: bytes, names: bytes, first: bytes, last: bytes, lastAt: nat)
    requires |header| == PAYLOAD && PAYLOAD + |names| + |first| <= lastAt && lastAt + |last| <= |memory|
    ensures var at := PAYLOAD + |names|;
            var r := Splice(Splice(Splice(Splice(memory, 0, header), PAYLOAD, names), at, first), lastAt, last);
            && r[..PAYLOAD] == header && r[PAYLOAD..at] == names && r[at..at + |first|] == first
            && r[lastAt..lastAt + |last|] == last
  {
    hide Splice;
    var at := PAYLOAD + |names|;
    var s1 := Splice(memory, 0, header);
    var s2 := Splice(s1, PAYLOAD, names);
    var s3 := Splice(s2, at, first);
    SpliceHolds(memory, 0, header);
    SpliceHolds(s1, PAYLOAD, names);
    SpliceHolds(s2, at, first);
    SpliceHolds(s3, lastAt, last);
    SpliceKeeps(s1, PAYLOAD, names, 0, PAYLOAD);
    SpliceKeeps(s2, at, first, 0, PAYLOAD);
    SpliceKeeps(s2, at, first, PAYLOAD, at);
    SpliceKeeps(s3, lastAt, last, 0, PAYLOAD);
    SpliceKeeps(s3, lastAt, last, PAYLOAD, at);
    SpliceKeeps(s3, lastAt, last, at, at + |first|);
  }

  lemma FittingSizes(call: AuditCall)
    requires call.Readable() && LengthsFit(call)
    ensures var sql, params := |call.sql.Text()|, |call.params.Text()|;
            && (if sql > MAIN_SQL_MAX then Min(sql % U32, CAPTURE_MAX) else sql) == |CapturedSql(call)|
            && (if params > MAIN_PARAMS_MAX then Min(params % U32, CAPTURE_MAX) else params) == |CapturedParams(call)|
  {
  }

  /** A fragment completes its own field and leaves the rest. */
  lemma SqlAssembles(seg: bytes, e: bytes, call: AuditCall, sqlHave: nat, paramsHave: nat)
    requires call.Readable() && HasHeader(e) && Assembled(seg, e, call, sqlHave, paramsHave)
    ensures var sql, at := CapturedSql(call), PAYLOAD + |Names(call)| + sqlHave;
            Assembled(Splice(seg, at, sql[sqlHave..]), e, call, |sql|, paramsHave)
  {
    hide Names, CapturedSql, CapturedParams, Splice;
    var names, sql, params := Names(call), CapturedSql(call), CapturedParams(call);
    var sqlAt, paramsAt := PAYLOAD + |names|, PAYLOAD + |names| + |sql|;
    SpliceExtends(seg, sqlAt + sqlHave, sql[sqlHave..], sqlAt);
    SpliceKeeps(seg, sqlAt + sqlHave, sql[sqlHave..], 0, PAYLOAD);
    SpliceKeeps(seg, sqlAt + sqlHave, sql[sqlHave..], PAYLOAD, sqlAt);
    SpliceKeeps(seg, sqlAt + sqlHave, sql[sqlHave..], paramsAt, paramsAt + paramsHave);
    assert sql[..sqlHave] + sql[sqlHave..] == sql;
  }

  lemma ParamsAssembles(seg: bytes, e: bytes, call: AuditCall, sqlHave: nat, paramsHave: nat)
    requires call.Readable() && HasHeader(e) && Assembled(seg, e, call, sqlHave, paramsHave)
    ensures var params, at := CapturedParams(call), PAYLOAD + |Names(call)| + |CapturedSql(call)| + paramsHave;
            Assembled(Splice(seg, at, params[paramsHave..]), e, call, sqlHave, |params|)
  {
    hide Names, CapturedSql, CapturedParams, Splice;
    var names, sql, params := Names(call), CapturedSql(call), CapturedParams(call);
    var sqlAt, paramsAt := PAYLOAD + |names|, PAYLOAD + |names| + |sql|;
    SpliceExtends(seg, paramsAt + paramsHave, params[paramsHave..], paramsAt);
    SpliceKeeps(seg, paramsAt + paramsHave, params[paramsHave..], 0, PAYLOAD);
    SpliceKeeps(seg, paramsAt + paramsHave, params[paramsHave..], PAYLOAD, sqlAt);
    SpliceKeeps(seg, paramsAt + paramsHave, params[paramsHave..], sqlAt, sqlAt + sqlHave);
    assert params[..paramsHave] + params[paramsHave..] == params;
  }

  lemma PrefixFields(s: bytes, n: nat)
    requires PAYLOAD <= n <= |s|
    ensures forall o: nat, m: nat {:trigger Field(s[..n], o, m)} :: o + m <= PAYLOAD ==>
              Field(s[..n], o, m) == Field(s, o, m)
  {
    forall o: nat, m: nat | o + m <= PAYLOAD
      ensures Field(s[..n], o, m) == Field(s, o, m)
    {
      SliceOfSlice(s, 0, n, o, o + m);
    }
  }

  lemma PrefixSlice(s: bytes, n: nat, lo: nat, hi: nat)
    requires lo <= hi <= n <= |s|
    ensures s[..n][lo..hi] == s[lo..hi]
  {
  }

  lemma ServerIpKeeps(e: bytes, ip: bytes)
    requires HasHeader(e) && |ip| == MAX_IP_LEN
    ensures forall o: nat, m: nat {:trigger Field(WithServerIp(e, ip), o, m)} ::
              o + m <= |e| && (o + m <= SERVER_IP || SERVER_IP + MAX_IP_LEN <= o) ==>
                Field(WithServerIp(e, ip), o, m) == Field(e, o, m)
    ensures WithServerIp(e, ip)[SERVER_IP..SERVER_IP + MAX_IP_LEN] == ip
    ensures WithServerIp(e, ip)[OB_RAW..] == e[OB_RAW..]
  {
    hide FromLE;
    SpliceHolds(e, SERVER_IP, ip);
    SpliceKeeps(e, SERVER_IP, ip, OB_RAW, |e|);
    forall o: nat, m: nat | o + m <= |e| && (o + m <= SERVER_IP || SERVER_IP + MAX_IP_LEN <= o)
      ensures Field(WithServerIp(e, ip), o, m) == Field(e, o, m)
    {
      SpliceKeeps(e, SERVER_IP, ip, o, o + m);
    }
  }

  /** What completion writes into the header, and that it writes nothing else. */
  lemma MergedFields(seg: bytes, ip: bytes)
    requires SegmentOk(seg) && |ip| == MAX_IP_LEN && FullSize(seg) < U32
    ensures var out := Merged(seg, ip);
            && |out| == FullSize(seg)
            && Field(out, TOTAL_SIZE, 4) == FullSize(seg)
            && Field(out, SQL_PAYLOAD_LEN, 4) == FullSql(seg)
            && Field(out, PARAMS_PAYLOAD_LEN, 4) == FullParams(seg)
            && HasFlag(Field(out, RECORD_FLAGS, 2), LOGICAL_COMPLETE)
            && (HasFlag(Field(out, RECORD_FLAGS, 2), PHYSICAL_COMPLETE)
                <==> HasFlag(Field(seg, RECORD_FLAGS, 2), PHYSICAL_COMPLETE))
            && out[SERVER_IP..SERVER_IP + MAX_IP_LEN] == ip
            && out[OB_RAW..] == seg[OB_RAW..FullSize(seg)]
            && forall o: nat, m: nat {:trigger Field(out, o, m)} :: KeptField(o, m) ==>
                 Field(out, o, m) == Field(seg, o, m)
  {
    hide HasFlag, FullSql, FullParams, NamesLen, WithServerIp, Field, Updated, WithFlag, Put;
    MergedIs(seg, ip);
    UpdatedFields(seg);
    var s4 := Updated(seg);
    ServerIpKeeps(s4, ip);
    var s5 := WithServerIp(s4, ip);
    PrefixFields(s5, FullSize(seg));
    PrefixSlice(s5, FullSize(seg), SERVER_IP, SERVER_IP + MAX_IP_LEN);
    PrefixOfTail(s5, seg, FullSize(seg));
  }

  /** The segment with its header brought up to date, but for the address. */
  function Updated(seg: bytes): (r: bytes)
    requires SegmentOk(seg)
    ensures |r| == |seg|
  {
    var s1 := Put(seg, SQL_PAYLOAD_LEN, 4, FullSql(seg));
    var s2 := Put(s1, PARAMS_PAYLOAD_LEN, 4, FullParams(seg));
    var s3 := Put(s2, RECORD_FLAGS, 2, WithFlag(Field(seg, RECORD_FLAGS, 2), LOGICAL_COMPLETE));
    Put(s3, TOTAL_SIZE, 4, FullSize(seg))
  }

  lemma MergedIs(seg: bytes, ip: bytes)
    requires SegmentOk(seg) && |ip| == MAX_IP_LEN
    ensures Merged(seg, ip) == WithServerIp(Updated(seg), ip)[..FullSize(seg)]
  {
    hide Put, FullSql, FullParams, NamesLen, Field, WithServerIp, WithFlag;
  }

  lemma UpdatedFields(seg: bytes)
    requires SegmentOk(seg) && FullSize(seg) < U32
    ensures var r := Updated(seg);
            && Field(r, TOTAL_SIZE, 4) == FullSize(seg)
            && Field(r, SQL_PAYLOAD_LEN, 4) == FullSql(seg)
            && Field(r, PARAMS_PAYLOAD_LEN, 4) == FullParams(seg)
            && HasFlag(Field(r, RECORD_FLAGS, 2), LOGICAL_COMPLETE)
            && (HasFlag(Field(r, RECORD_FLAGS, 2), PHYSICAL_COMPLETE)
                <==> HasFlag(Field(seg, RECORD_FLAGS, 2), PHYSICAL_COMPLETE))
            && r[OB_RAW..] == seg[OB_RAW..]
            && forall o: nat, m: nat {:trigger Field(r, o, m)} :: KeptField(o, m) ==> Field(r, o, m) == Field(seg, o, m)
  {
    hide Put, HasFlag, FullSql, FullParams, NamesLen, Field, Pow256, WithFlag;
    PowerValues();
    var flags := WithFlag(Field(seg, RECORD_FLAGS, 2), LOGICAL_COMPLETE);
    FlagFits(seg);
    PutHeader(seg, SQL_PAYLOAD_LEN, 4, FullSql(seg));
    var s1 := Put(seg, SQL_PAYLOAD_LEN, 4, FullSql(seg));
    PutHeader(s1, PARAMS_PAYLOAD_LEN, 4, FullParams(seg));
    var s2 := Put(s1, PARAMS_PAYLOAD_LEN, 4, FullParams(seg));
    PutHeader(s2, RECORD_FLAGS, 2, flags);
    var s3 := Put(s2, RECORD_FLAGS, 2, flags);
    PutHeader(s3, TOTAL_SIZE, 4, FullSize(seg));
  }

  lemma PrefixOfTail(s: bytes, t: bytes, n: nat)
    requires OB_RAW <= n <= |s| == |t| && s[OB_RAW..] == t[OB_RAW..]
    ensures s[..n][OB_RAW..] == t[OB_RAW..n]
  {
    assert s[OB_RAW..|s|] == s[OB_RAW..] == t[OB_RAW..|t|];
    SliceOfSlice(s, OB_RAW, |s|, OB_RAW, n);
    SliceOfSlice(t, OB_RAW, |t|, OB_RAW, n);
    assert s[..n][OB_RAW..] == s[OB_RAW..n];
  }

  lemma FlagFits(seg: bytes)
    requires HasHeader(seg)
    ensures WithFlag(Field(seg, RECORD_FLAGS, 2), LOGICAL_COMPLETE) < Pow256(2)
    ensures HasFlag(WithFlag(Field(seg, RECORD_FLAGS, 2), LOGICAL_COMPLETE), LOGICAL_COMPLETE)
    ensures HasFlag(WithFlag(Field(seg, RECORD_FLAGS, 2), LOGICAL_COMPLETE), PHYSICAL_COMPLETE)
            <==> HasFlag(Field(seg, RECORD_FLAGS, 2), PHYSICAL_COMPLETE)
  {
    hide FromLE, Pow256, HasFlag, WithFlag;
    PowerValues();
    LoadBound(seg[RECORD_FLAGS..RECORD_FLAGS + 2]);
    SetFlag(Field(seg, RECORD_FLAGS, 2));
  }

  lemma SetFlag(flags: nat)
    requires flags < 0x1_0000
    ensures WithFlag(flags, LOGICAL_COMPLETE) < 0x1_0000 && HasFlag(WithFlag(flags, LOGICAL_COMPLETE), LOGICAL_COMPLETE)
    ensures HasFlag(WithFlag(flags, LOGICAL_COMPLETE), PHYSICAL_COMPLETE) <==> HasFlag(flags, PHYSICAL_COMPLETE)
  {
    assert flags / 1 == flags && (flags + 1) / 1 == flags + 1;
  }

  lemma PiecesJoin(s: bytes, at: nat, x: bytes, y: bytes, z: bytes)
    requires at + |x| + |y| + |z| <= |s| && s[at..at + |x|] == x && s[at + |x|..at + |x| + |y|] == y
    requires s[at + |x| + |y|..at + |x| + |y| + |z|] == z
    ensures s[at..at + |x| + |y| + |z|] == x + y + z
  {
    assert s[at..at + |x| + |y| + |z|] == s[at..at + |x|] + s[at + |x|..at + |x| + |y|]
      + s[at + |x| + |y|..at + |x| + |y| + |z|];
  }

  /** A record that agrees with a segment from the saved statement on agrees with the segment's header and payload. */
  lemma SlicesAgree(out: bytes, seg: bytes, e: bytes, n: nat)
    requires PAYLOAD <= n == |out| <= |seg| && |e| >= PAYLOAD && seg[..PAYLOAD] == e[..PAYLOAD]
    requires out[OB_RAW..n] == seg[OB_RAW..n]
    ensures out[PAYLOAD..] == seg[PAYLOAD..n] && out[OB_RAW..OB_RAW + RAW_SIZE] == e[OB_RAW..OB_RAW + RAW_SIZE]
  {
    SliceOfSlice(out, OB_RAW, n, PAYLOAD, n);
    SliceOfSlice(seg, OB_RAW, n, PAYLOAD, n);
    SliceOfSlice(out, OB_RAW, n, OB_RAW, PAYLOAD);
    SliceOfSlice(seg, OB_RAW, n, OB_RAW, PAYLOAD);
    SliceOfSlice(seg, 0, PAYLOAD, OB_RAW, PAYLOAD);
    SliceOfSlice(e, 0, PAYLOAD, OB_RAW, PAYLOAD);
  }

  /** A fully assembled segment is submitted as the whole event. */
  lemma MergedWhole(seg: bytes, e: bytes, call: AuditCall, ip: bytes, q: nat, n: nat)
    requires call.Readable() && LengthsFit(call) && MainImage(e, call, q, n) && HasHeader(e) && |ip| == MAX_IP_LEN
    requires Assembled(seg, e, call, |CapturedSql(call)|, |CapturedParams(call)|) && SegmentOk(seg)
    requires FullSize(seg) == PAYLOAD + |Names(call)| + |CapturedSql(call)| + |CapturedParams(call)|
    requires FullSql(seg) == |CapturedSql(call)| && FullParams(seg) == |CapturedParams(call)|
    ensures WholeRecord(Merged(seg, ip), e, call, ip)
  {
    hide FromLE, Put, Splice, HasFlag, FullSql, FullParams, Merged, Names, CapturedSql, CapturedParams, UserString.Text;
    var names, sql, params := Names(call), CapturedSql(call), CapturedParams(call);
    NamesShort(call);
    MergedFields(seg, ip);
    SameFields(e, seg);
    var out := Merged(seg, ip);
    var payload := names + sql + params;
    assert seg[PAYLOAD..FullSize(seg)] == payload by {
      assert sql[..|sql|] == sql && params[..|params|] == params;
      PiecesJoin(seg, PAYLOAD, names, sql, params);
    }
    assert out[OB_RAW..|out|] == out[OB_RAW..] == seg[OB_RAW..FullSize(seg)];
    SlicesAgree(out, seg, e, |out|);
    WholeIsValid(out, e, call, q, n);
  }

  lemma WholeIsValid(out: bytes, e: bytes, call: AuditCall, q: nat, n: nat)
    requires call.Readable() && MainImage(e, call, q, n) && HasHeader(e)
    requires |out| == PAYLOAD + |Names(call)| + |CapturedSql(call)| + |CapturedParams(call)|
    requires Field(out, TOTAL_SIZE, 4) == |out|
    requires Field(out, SQL_PAYLOAD_LEN, 4) == |CapturedSql(call)|
    requires Field(out, PARAMS_PAYLOAD_LEN, 4) == |CapturedParams(call)|
    requires forall o: nat, m: nat {:trigger Field(out, o, m)} :: KeptField(o, m) ==> Field(out, o, m) == Field(e, o, m)
    ensures ValidRecord(out) && CompactSizeValid(out)
  {
    hide Field, Names, UserString.Text;
    NamesShort(call);
    assert Field(out, RECORD_TYPE, 2) == Field(e, RECORD_TYPE, 2);
    assert NamesLen(out) == NamesLen(e);
    NamesLenIs(e, call);
  }

  /** Whoever reads the whole event finds each of the call's names under its own accessor, and SQL and params up to the
    * capture limit. */
  lemma WholeReads(out: bytes, e: bytes, call: AuditCall, ip: bytes, q: nat, n: nat)
    requires call.Readable() && MainImage(e, call, q, n) && HasHeader(e) && WholeRecord(out, e, call, ip)
    ensures Readable(out) && UserNameOf(out) == UserName(call) && ProxyUserNameOf(out) == ProxyUserName(call)
    ensures TenantNameOf(out) == TenantName(call) && DbNameOf(out) == DbName(call)
    ensures QuerySqlOf(out) == CapturedSql(call) && ParamsOf(out) == CapturedParams(call)
    ensures HasFlag(Field(out, RECORD_FLAGS, 2), PHYSICAL_COMPLETE)
            <==> |call.sql.Text()| <= CAPTURE_MAX && |call.params.Text()| <= CAPTURE_MAX
  {
    hide Field, UserString.Text, Flags, NextField, Cut, ValidRecord, CompactSizeValid, HasFlag, RecordFlags;
    hide CapturedSql, CapturedParams, UserName, ProxyUserName, TenantName, DbName;
    RecordFlagsTell(|call.sql.Text()|, |call.params.Text()|);
    var sql, params := CapturedSql(call), CapturedParams(call);
    assert UserName(call) + ProxyUserName(call) + TenantName(call) + DbName(call) + sql + params
        == Names(call) + sql + params == out[PAYLOAD..];
    ReadsBack(out, UserName(call), ProxyUserName(call), TenantName(call), DbName(call), sql, params);
  }

  /** A pending segment of `call` on its way to completion. */
  ghost predicate Building(seg: bytes, e: bytes, call: AuditCall, sqlHave: nat, paramsHave: nat)
    requires call.Readable() && HasHeader(e)
  {
    && Assembled(seg, e, call, sqlHave, paramsHave)
    && SegmentOk(seg) && NamesLen(seg) == |Names(call)|
    && FullSql(seg) == |CapturedSql(call)| && FullParams(seg) == |CapturedParams(call)|
  }

  lemma BuildingFrom(s: bytes, t: bytes, e: bytes, call: AuditCall, sqlHave: nat, paramsHave: nat, sqlNow: nat,
                     paramsNow: nat)
    requires call.Readable() && HasHeader(e) && Building(s, e, call, sqlHave, paramsHave)
    requires Assembled(t, e, call, sqlNow, paramsNow) && |t| == |s|
    ensures Building(t, e, call, sqlNow, paramsNow)
  {
    hide Field, HasFlag, Names, CapturedSql, CapturedParams, FullSql, FullParams, NamesLen;
    SameFields(s, t);
  }

  lemma MainBuilds(memory: bytes, e: bytes, call: AuditCall, q: nat, n: nat, ip: bytes)
    requires call.Readable() && LengthsFit(call) && MainImage(e, call, q, n) && HasHeader(e) && |ip| == MAX_IP_LEN
    requires LongCall(call)
    requires |memory| >= PAYLOAD && FullSize(e) <= |memory|
    ensures PayloadInside(e) && Building(StoreMain(memory, e), e, call, |FirstSql(call)|, |FirstParams(call)|)
    ensures Received(EventRecord(e)) && RecordOk(EventRecord(e)) && KeyOf(EventRecord(e)) == q
    ensures MainVerdict(e, Granted(memory), ip) == Keep(StoreMain(memory, e))
  {
    hide Field, HasFlag, Names, CapturedSql, CapturedParams, FirstSql, FirstParams, StoreMain, FullSql, FullParams;
    hide NamesLen;
    hide UserString.Text, Assembled, LengthsFit;
    ImageSizes(e, call, q, n);
    MainImageValid(e, call, q, n);
    MainAssembles(memory, e, call, q, n);
    StoredMainOk(memory, e);
    SameFields(e, StoreMain(memory, e));
  }

  /** The SQL fragment completes the SQL; it completes the event if no params fragment follows. */
  lemma SqlBuilds(seg: bytes, e: bytes, call: AuditCall, paramsHave: nat, q: nat, ownSeq: nat, nextSeq: nat, ip: bytes)
    returns (filled: bytes)
    requires call.Readable() && HasHeader(e) && |ip| == MAX_IP_LEN && |call.sql.Text()| > MAIN_SQL_MAX
    requires Building(seg, e, call, MAIN_SQL_MAX, paramsHave)
    ensures var f := FragmentOf(QuerySql, call.sql.Text(), MAIN_SQL_MAX, q, ownSeq, nextSeq);
            && Building(filled, e, call, |CapturedSql(call)|, paramsHave) && SegmentOk(filled) && RecordOk(f)
            && FragmentVerdict(Some(seg), f, ip) == if nextSeq != 0 then Keep(filled) else Complete(Merged(filled, ip))
  {
    hide Names, Splice, Merged, FullSql, FullParams, NamesLen, CapturedParams, Field;
    filled := Splice(seg, PAYLOAD + |Names(call)| + MAIN_SQL_MAX, CapturedSql(call)[MAIN_SQL_MAX..]);
    SqlAssembles(seg, e, call, MAIN_SQL_MAX, paramsHave);
    BuildingFrom(seg, filled, e, call, MAIN_SQL_MAX, paramsHave, |CapturedSql(call)|, paramsHave);
    var f := FragmentOf(QuerySql, call.sql.Text(), MAIN_SQL_MAX, q, ownSeq, nextSeq);
    assert f.payload[..f.payloadLen] == CapturedSql(call)[MAIN_SQL_MAX..];
  }

  lemma ParamsBuilds(seg: bytes, e: bytes, call: AuditCall, sqlHave: nat, q: nat, ownSeq: nat, ip: bytes)
    returns (filled: bytes)
    requires call.Readable() && HasHeader(e) && |ip| == MAX_IP_LEN && |call.params.Text()| > MAIN_PARAMS_MAX
    requires Building(seg, e, call, sqlHave, MAIN_PARAMS_MAX)
    ensures var f := FragmentOf(ParamsValue, call.params.Text(), MAIN_PARAMS_MAX, q, ownSeq, 0);
            && Building(filled, e, call, sqlHave, |CapturedParams(call)|) && SegmentOk(filled) && RecordOk(f)
            && FragmentVerdict(Some(seg), f, ip) == Complete(Merged(filled, ip))
    ensures filled == Splice(seg, PAYLOAD + |Names(call)| + |CapturedSql(call)| + MAIN_PARAMS_MAX,
                             CapturedParams(call)[MAIN_PARAMS_MAX..])
  {
    hide Names, Splice, Merged, FullSql, FullParams, NamesLen, CapturedSql, Field;
    filled := Splice(seg, PAYLOAD + |Names(call)| + |CapturedSql(call)| + MAIN_PARAMS_MAX,
                     CapturedParams(call)[MAIN_PARAMS_MAX..]);
    ParamsAssembles(seg, e, call, sqlHave, MAIN_PARAMS_MAX);
    BuildingFrom(seg, filled, e, call, sqlHave, MAIN_PARAMS_MAX, sqlHave, |CapturedParams(call)|);
    var f := FragmentOf(ParamsValue, call.params.Text(), MAIN_PARAMS_MAX, q, ownSeq, 0);
    assert f.payload[..f.payloadLen] == CapturedParams(call)[MAIN_PARAMS_MAX..];
  }

  lemma BuiltWhole(seg: bytes, e: bytes, call: AuditCall, ip: bytes, q: nat, n: nat)
    requires call.Readable() && LengthsFit(call) && MainImage(e, call, q, n) && HasHeader(e) && |ip| == MAX_IP_LEN
    requires Building(seg, e, call, |CapturedSql(call)|, |CapturedParams(call)|)
    ensures WholeRecord(Merged(seg, ip), e, call, ip)
  {
    hide Field, HasFlag, Names, CapturedSql, CapturedParams, FullSql, FullParams, NamesLen, Assembled, WholeRecord;
    hide MainImage, LengthsFit;
    MergedWhole(seg, e, call, ip, q, n);
  }

  /** How one record moves its own event. */
  lemma StepKeeps(a: Agent, i: Input, seg: bytes)
    requires AgentOk(a) && InputOk(i)
    requires VerdictOf(i.record, PendingOf(a, KeyOf(i.record)), i.grant, a.serverIp) == Keep(seg)
    ensures var (b, out) := HandleEvent(a, i);
            out == [] && PendingOf(b, KeyOf(i.record)) == Some(seg) && b.serverIp == a.serverIp
  {
    hide VerdictOf;
  }

  lemma StepCompletes(a: Agent, i: Input, record: bytes)
    requires AgentOk(a) && InputOk(i)
    requires VerdictOf(i.record, PendingOf(a, KeyOf(i.record)), i.grant, a.serverIp) == Complete(record)
    ensures var (b, out) := HandleEvent(a, i);
            out == [Submission(KeyOf(i.record), record)] && PendingOf(b, KeyOf(i.record)) == None
  {
    hide VerdictOf;
  }

  function RecordsOf(xs: seq<Input>): (r: seq<KernelRecord>)
    ensures |r| == |xs| && forall i :: 0 <= i < |xs| ==> r[i] == xs[i].record
  {
    seq(|xs|, i requires 0 <= i < |xs| => xs[i].record)
  }

  lemma RunFirst(a: Agent, xs: seq<Input>)
    requires AgentOk(a) && (forall i :: 0 <= i < |xs| ==> InputOk(xs[i])) && xs != []
    ensures var (b, out) := HandleEvent(a, xs[0]);
            AgentOk(b) && Run(a, xs) == (Run(b, xs[1..]).0, out + Run(b, xs[1..]).1)
  {
    HandleEventOk(a, xs[0]);
  }

  /** `own` is what is still to come for an event that is pending as `seg`. */
  ghost predicate Remaining(a: Agent, own: seq<Input>, call: AuditCall, e: bytes, q: nat, n: nat, seg: bytes,
                            sqlHave: nat, paramsHave: nat)
    requires call.Readable()
  {
    && AgentOk(a) && (forall i :: 0 <= i < |own| ==> InputOk(own[i]))
    && LengthsFit(call) && MainImage(e, call, q, n) && HasHeader(e)
    && PendingOf(a, q) == Some(seg) && Building(seg, e, call, sqlHave, paramsHave)
  }

  /** Running `own` submits the event once, whole, and leaves nothing pending. */
  ghost predicate Delivers(a: Agent, own: seq<Input>, call: AuditCall, e: bytes, q: nat)
    requires call.Readable() && AgentOk(a) && HasHeader(e) && forall i :: 0 <= i < |own| ==> InputOk(own[i])
  {
    var (b, out) := Run(a, own);
    && |out| == 1 && out[0].key == q && WholeRecord(out[0].record, e, call, a.serverIp)
    && q !in b.pending
  }

  lemma FinishParams(a: Agent, own: seq<Input>, call: AuditCall, e: bytes, q: nat, n: nat, paramsSeq: nat, seg: bytes)
    requires call.Readable() && |call.params.Text()| > MAIN_PARAMS_MAX
    requires Remaining(a, own, call, e, q, n, seg, |CapturedSql(call)|, MAIN_PARAMS_MAX)
    requires RecordsOf(own) == [FragmentOf(ParamsValue, call.params.Text(), MAIN_PARAMS_MAX, q, paramsSeq, 0)]
    ensures Delivers(a, own, call, e, q)
  {
    hide MainImage, WholeRecord, Building, Merged, FragmentOf, CapturedSql, CapturedParams;
    hide HandleEvent, AgentOk, Field, LengthsFit, FragmentVerdict, FullSize, UserString.Text;
    AgentIp(a);
    assert own[0].record == RecordsOf(own)[0];
    var filled := ParamsBuilds(seg, e, call, |CapturedSql(call)|, q, paramsSeq, a.serverIp);
    FragmentKey(ParamsValue, call.params.Text(), MAIN_PARAMS_MAX, q, paramsSeq, 0);
    StepCompletes(a, own[0], Merged(filled, a.serverIp));
    BuiltWhole(filled, e, call, a.serverIp, q, n);
    RunFirst(a, own);
    assert own[1..] == [];
  }

  lemma FinishSql(a: Agent, own: seq<Input>, call: AuditCall, e: bytes, q: nat, n: nat, sqlSeq: nat, paramsSeq: nat,
                  seg: bytes)
    requires call.Readable() && |call.sql.Text()| > MAIN_SQL_MAX && (LongParams(call) ==> paramsSeq > 0)
    requires Remaining(a, own, call, e, q, n, seg, MAIN_SQL_MAX, |FirstParams(call)|)
    requires RecordsOf(own) == Fragments(call, q, sqlSeq, paramsSeq)
    ensures Delivers(a, own, call, e, q)
  {
    hide MainImage, WholeRecord, Building, Merged, FragmentOf, CapturedSql, CapturedParams, FirstParams;
    hide HandleEvent, AgentOk, Field, LengthsFit, FragmentVerdict, FullSize, UserString.Text;
    AgentIp(a);
    FirstLengths(call);
    var sql, params := call.sql.Text(), call.params.Text();
    var next := if |params| > MAIN_PARAMS_MAX then paramsSeq else 0;
    assert own[0].record == RecordsOf(own)[0] == FragmentOf(QuerySql, sql, MAIN_SQL_MAX, q, sqlSeq, next);
    var filled := SqlBuilds(seg, e, call, |FirstParams(call)|, q, sqlSeq, next, a.serverIp);
    FragmentKey(QuerySql, sql, MAIN_SQL_MAX, q, sqlSeq, next);
    RunFirst(a, own);
    if |params| > MAIN_PARAMS_MAX {
      StepKeeps(a, own[0], filled);
      assert RecordsOf(own[1..]) == RecordsOf(own)[1..];
      FinishParams(HandleEvent(a, own[0]).0, own[1..], call, e, q, n, paramsSeq, filled);
    } else {
      StepCompletes(a, own[0], Merged(filled, a.serverIp));
      BuiltWhole(filled, e, call, a.serverIp, q, n);
      assert own[1..] == [];
    }
  }

  /** An event's own records, in order and none lost, give exactly one submission: the whole event. */
  lemma OwnRunDelivers(a: Agent, own: seq<Input>, call: AuditCall, e: bytes, q: nat, n: nat, sqlSeq: nat,
                       paramsSeq: nat)
    requires AgentOk(a) && forall i :: 0 <= i < |own| ==> InputOk(own[i])
    requires call.Readable() && LengthsFit(call) && MainImage(e, call, q, n) && HasHeader(e)
    requires LongCall(call)
    requires LongParams(call) ==> paramsSeq > 0
    requires RecordsOf(own) == [EventRecord(e)] + Fragments(call, q, sqlSeq, paramsSeq) && own[0].grant.Granted?
    ensures Delivers(a, own, call, e, q)
  {
    hide MainImage, WholeRecord, Building, FragmentOf, StoreMain, CapturedSql, CapturedParams;
    hide HandleEvent, AgentOk, Field, LengthsFit, FirstSql, FirstParams, MainVerdict, FullSize, UserString.Text;
    AgentIp(a);
    assert own[0].record == RecordsOf(own)[0];
    var memory := own[0].grant.memory;
    MainBuilds(memory, e, call, q, n, a.serverIp);
    FirstLengths(call);
    StepKeeps(a, own[0], StoreMain(memory, e));
    RunFirst(a, own);
    assert RecordsOf(own[1..]) == RecordsOf(own)[1..] == Fragments(call, q, sqlSeq, paramsSeq);
    var b := HandleEvent(a, own[0]).0;
    if |call.sql.Text()| > MAIN_SQL_MAX {
      FinishSql(b, own[1..], call, e, q, n, sqlSeq, paramsSeq, StoreMain(memory, e));
    } else {
      FinishParams(b, own[1..], call, e, q, n, paramsSeq, StoreMain(memory, e));
    }
  }

  lemma AgentIp(a: Agent)
    requires AgentOk(a)
    ensures |a.serverIp| == MAX_IP_LEN
  {
  }

  lemma FirstLengths(call: AuditCall)
    requires call.Readable()
    ensures |call.sql.Text()| > MAIN_SQL_MAX ==> |FirstSql(call)| == MAIN_SQL_MAX
    ensures |call.sql.Text()| <= MAIN_SQL_MAX ==> FirstSql(call) == CapturedSql(call)
    ensures |call.params.Text()| > MAIN_PARAMS_MAX ==> |FirstParams(call)| == MAIN_PARAMS_MAX
    ensures |call.params.Text()| <= MAIN_PARAMS_MAX ==> FirstParams(call) == CapturedParams(call)
  {
  }

  lemma FragmentKey(field: FragmentField, text: bytes, first: nat, q: nat, ownSeq: nat, nextSeq: nat)
    requires first < |text| && first < CAPTURE_MAX
    ensures var f := FragmentOf(field, text, first, q, ownSeq, nextSeq); f.FragmentRecord? && KeyOf(f) == q
  {
  }

  /** For any interleaving with the records of other events that keeps an event's own records in order
    * and loses none of them, an event that got its segment is submitted exactly once, whole. */
  lemma RoundTrip(a: Agent, xs: seq<Input>, call: AuditCall, e: bytes, q: nat, n: nat, sqlSeq: nat, paramsSeq: nat)
    requires AgentOk(a) && forall i :: 0 <= i < |xs| ==> InputOk(xs[i])
    requires call.Readable() && LengthsFit(call) && MainImage(e, call, q, n) && HasHeader(e)
    requires LongCall(call)
    requires LongParams(call) ==> paramsSeq > 0
    requires RecordsOf(OwnInputs(xs, q)) == [EventRecord(e)] + Fragments(call, q, sqlSeq, paramsSeq)
    requires OwnInputs(xs, q)[0].grant.Granted?
    ensures var (b, out) := Run(a, xs);
            && |OwnSubmissions(out, q)| == 1
            && WholeRecord(OwnSubmissions(out, q)[0].record, e, call, a.serverIp)
            && q !in b.pending
  {
    hide MainImage, WholeRecord, FragmentOf, AgentOk, InputOk, LengthsFit, UserString.Text;
    var own := OwnInputs(xs, q);
    Projection(a, a, xs, q);
    OwnRunDelivers(a, own, call, e, q, n, sqlSeq, paramsSeq);
    var out := Run(a, own).1;
    assert out[1..] == [];
  }

  /** A record whose payload lengths are the ones the agent derives from main record `e`. */
  ghost predicate SizedLike(record: bytes, e: bytes)
    requires HasHeader(e)
  {
    && HasHeader(record)
    && Field(record, SQL_PAYLOAD_LEN, 4) == FullSql(e) && Field(record, PARAMS_PAYLOAD_LEN, 4) == FullParams(e)
  }

  lemma FragmentSized(seg: bytes, f: KernelRecord, e: bytes, ip: bytes)
    requires f.FragmentRecord? && RecordOk(f) && |ip| == MAX_IP_LEN && SegmentOk(seg)
    requires HasHeader(e) && FullSize(e) < U32 && seg[..PAYLOAD] == e[..PAYLOAD]
    ensures match FragmentVerdict(Some(seg), f, ip)
            case Keep(filled) => HasHeader(filled) && filled[..PAYLOAD] == e[..PAYLOAD]
            case Complete(record) => SizedLike(record, e)
            case Direct(_) => false
            case _ => true
  {
    hide Field, HasFlag, FullSql, FullParams, NamesLen, Merged;
    SameFields(e, seg);
    if FragmentVerdict(Some(seg), f, ip).Keep? || FragmentVerdict(Some(seg), f, ip).Complete? {
      var at := PAYLOAD + NamesLen(seg) + (if f.field == QuerySql then 0 else FullSql(seg)) + f.fragmentOffset;
      if at + f.payloadLen <= |seg| {
        var filled := Splice(seg, at, f.payload[..f.payloadLen]);
        assert filled[..PAYLOAD] == seg[..PAYLOAD];
        SameFields(e, filled);
        MergedFields(filled, ip);
      }
    }
  }

  /** Fragments never touch the header, so whatever completes has the lengths of its main record. */
  lemma {:induction false} TailSized(a: Agent, own: seq<Input>, e: bytes, q: nat)
    requires AgentOk(a) && HasHeader(e) && FullSize(e) < U32
    requires forall i :: 0 <= i < |own| ==>
               InputOk(own[i]) && own[i].record.FragmentRecord? && KeyOf(own[i].record) == q
    requires PendingOf(a, q).Some? ==> PendingOf(a, q).value[..PAYLOAD] == e[..PAYLOAD]
    ensures forall i :: 0 <= i < |Run(a, own).1| ==> SizedLike(Run(a, own).1[i].record, e)
    decreases |own|
  {
    hide SizedLike, FullSize, SegmentOk, FragmentVerdict;
    if own != [] {
      var f := own[0].record;
      AgentIp(a);
      if PendingOf(a, q).Some? {
        FragmentSized(PendingOf(a, q).value, f, e, a.serverIp);
      } else {
        NoSegment(f, a.serverIp);
      }
      RunFirst(a, own);
      var (b, out) := HandleEvent(a, own[0]);
      assert forall i :: 0 <= i < |out| ==> SizedLike(out[i].record, e);
      TailSized(b, own[1..], e, q);
      var rest := Run(b, own[1..]).1;
      assert forall i :: 0 <= i < |out + rest| ==> (out + rest)[i] in out || (out + rest)[i] in rest;
    }
  }

  lemma NoSegment(f: KernelRecord, ip: bytes)
    requires f.FragmentRecord? && RecordOk(f) && |ip| == MAX_IP_LEN
    ensures FragmentVerdict(None, f, ip) == Ignore || FragmentVerdict(None, f, ip) == Lose(false)
  {
  }

  /** The 32-bit cut is the only thing that can break the round trip: with all records at hand, the whole
    * event is submitted if and only if the cut leaves both captured lengths as they are. */
  lemma RoundTripExact(a: Agent, xs: seq<Input>, call: AuditCall, e: bytes, q: nat, n: nat, sqlSeq: nat, paramsSeq: nat)
    requires AgentOk(a) && forall i :: 0 <= i < |xs| ==> InputOk(xs[i])
    requires call.Readable() && MainImage(e, call, q, n) && HasHeader(e)
    requires LongCall(call)
    requires LongParams(call) ==> paramsSeq > 0
    requires RecordsOf(OwnInputs(xs, q)) == [EventRecord(e)] + Fragments(call, q, sqlSeq, paramsSeq)
    requires OwnInputs(xs, q)[0].grant.Granted?
    ensures var out := OwnSubmissions(Run(a, xs).1, q);
            (|out| == 1 && WholeRecord(out[0].record, e, call, a.serverIp)) <==> LengthsFit(call)
  {
    hide MainImage, WholeRecord, FragmentOf, AgentOk, InputOk, LengthsFit, UserString.Text, SizedLike;
    if LengthsFit(call) {
      RoundTrip(a, xs, call, e, q, n, sqlSeq, paramsSeq);
    } else {
      var own := OwnInputs(xs, q);
      Projection(a, a, xs, q);
      OwnFragments(own, call, e, q, sqlSeq, paramsSeq);
      OwnRunSized(a, own, call, e, q, n);
      var out := OwnSubmissions(Run(a, own).1, q);
      OwnOfRun(Run(a, own).1, q);
      if |out| == 1 && WholeRecord(out[0].record, e, call, a.serverIp) {
        SizedNotWhole(out[0].record, e, call, a.serverIp, q, n);
      }
    }
  }

  lemma {:induction false} OwnOfRun(out: seq<Submission>, q: nat)
    ensures forall i :: 0 <= i < |OwnSubmissions(out, q)| ==> OwnSubmissions(out, q)[i] in out
  {
    if out != [] {
      OwnOfRun(out[1..], q);
    }
  }

  lemma SizedNotWhole(record: bytes, e: bytes, call: AuditCall, ip: bytes, q: nat, n: nat)
    requires call.Readable() && MainImage(e, call, q, n) && HasHeader(e) && !LengthsFit(call)
    requires SizedLike(record, e)
    ensures !WholeRecord(record, e, call, ip)
  {
    hide Field, Names, Fragmented, MainImage, FullSql, FullParams;
    ImageSizes(e, call, q, n);
  }

  lemma OwnFragments(own: seq<Input>, call: AuditCall, e: bytes, q: nat, sqlSeq: nat, paramsSeq: nat)
    requires call.Readable() && RecordsOf(own) == [EventRecord(e)] + Fragments(call, q, sqlSeq, paramsSeq)
    ensures own != [] && own[0].record == EventRecord(e)
    ensures forall i :: 1 <= i < |own| ==> own[i].record.FragmentRecord? && KeyOf(own[i].record) == q
  {
    hide Fragments, KeyOf;
    FragmentsOwn(call, q, sqlSeq, paramsSeq);
    forall i | 1 <= i < |own|
      ensures own[i].record.FragmentRecord? && KeyOf(own[i].record) == q
    {
      assert RecordsOf(own)[i] == Fragments(call, q, sqlSeq, paramsSeq)[i - 1];
    }
    assert RecordsOf(own)[0] == EventRecord(e);
  }

  /** Whatever of its fragments is lost, an event has the lengths of its main record. */
  lemma OwnRunSized(a: Agent, own: seq<Input>, call: AuditCall, e: bytes, q: nat, n: nat)
    requires AgentOk(a) && forall i :: 0 <= i < |own| ==> InputOk(own[i])
    requires call.Readable() && MainImage(e, call, q, n) && HasHeader(e)
    requires LongCall(call)
    requires own != [] && own[0].record == EventRecord(e) && own[0].grant.Granted?
    requires forall i :: 1 <= i < |own| ==> own[i].record.FragmentRecord? && KeyOf(own[i].record) == q
    ensures forall i :: 0 <= i < |Run(a, own).1| ==> SizedLike(Run(a, own).1[i].record, e)
  {
    hide MainImage, SizedLike, StoreMain, AgentOk, Field, FirstSql, FirstParams, UserString.Text, FullSql;
    hide FullParams, HasFlag;
    hide FragmentOf, CompactSizeValid, Fragmented, Names, NamesLen, HandleEvent;
    AgentIp(a);
    var memory := own[0].grant.memory;
    ImageSizes(e, call, q, n);
    ImageReceived(e, call, q, n);
    NamesShort(call);
    StoredMainOk(memory, e);
    StepKeeps(a, own[0], StoreMain(memory, e));
    RunFirst(a, own);
    TailSized(HandleEvent(a, own[0]).0, own[1..], e, q);
  }

  lemma ImageReceived(e: bytes, call: AuditCall, q: nat, n: nat)
    requires call.Readable() && MainImage(e, call, q, n) && HasHeader(e)
    ensures Received(EventRecord(e)) && KeyOf(EventRecord(e)) == q
  {
    MainImageValid(e, call, q, n);
  }

  lemma FragmentsOwn(call: AuditCall, q: nat, sqlSeq: nat, paramsSeq: nat)
    requires call.Readable()
    ensures forall i :: 0 <= i < |Fragments(call, q, sqlSeq, paramsSeq)| ==>
              var f := Fragments(call, q, sqlSeq, paramsSeq)[i]; f.FragmentRecord? && KeyOf(f) == q
  {
  }

  /** An event that was never cut is submitted whole from its one record. */
  lemma DirectWhole(a: Agent, i: Input, call: AuditCall, e: bytes, q: nat, n: nat)
    requires AgentOk(a) && InputOk(i) && call.Readable() && MainImage(e, call, q, n) && HasHeader(e)
    requires |call.sql.Text()| <= MAIN_SQL_MAX && |call.params.Text()| <= MAIN_PARAMS_MAX && i.record == EventRecord(e)
    ensures var (b, out) := HandleEvent(a, i);
            && |out| == 1 && out[0].key == q && WholeRecord(out[0].record, e, call, a.serverIp)
            && b.pending == a.pending && b.lost == a.lost
  {
    hide MainImage, WholeRecord, Field, HasFlag, Names, CapturedSql, CapturedParams, FirstSql, FirstParams;
    hide CompactSizeValid;
    hide WithServerIp, FullSql, FullParams, NamesLen, UserString.Text, SegmentOk;
    AgentIp(a);
    ImageSizes(e, call, q, n);
    ImageReceived(e, call, q, n);
    ImageFits(e, call, q, n);
    assert MainVerdict(e, i.grant, a.serverIp) == Direct(WithServerIp(e[..PAYLOAD + PayloadSum(e)], a.serverIp));
    DirectIsWhole(e, call, q, n, a.serverIp);
  }

  lemma ImageFits(e: bytes, call: AuditCall, q: nat, n: nat)
    requires call.Readable() && MainImage(e, call, q, n) && HasHeader(e)
    ensures Field(e, TOTAL_SIZE, 4) <= MAIN_BUCKET
  {
  }

  lemma DirectIsWhole(e: bytes, call: AuditCall, q: nat, n: nat, ip: bytes)
    requires call.Readable() && MainImage(e, call, q, n) && HasHeader(e) && |ip| == MAX_IP_LEN && PayloadInside(e)
    requires |call.sql.Text()| <= MAIN_SQL_MAX && |call.params.Text()| <= MAIN_PARAMS_MAX
    ensures WholeRecord(WithServerIp(e[..PAYLOAD + PayloadSum(e)], ip), e, call, ip)
  {
    hide Field, HasFlag, Names, CapturedSql, CapturedParams, WithServerIp, UserString.Text, FirstSql, FirstParams;
    ImageSizes(e, call, q, n);
    FirstLengths(call);
    var payload := Names(call) + FirstSql(call) + FirstParams(call);
    var size := PAYLOAD + |payload|;
    var cut := e[..size];
    var out := WithServerIp(cut, ip);
    PrefixFields(e, size);
    ServerIpKeeps(cut, ip);
    SameTail(out, cut, PAYLOAD, |payload|);
    SameTail(out, cut, OB_RAW, RAW_SIZE);
    PrefixSlice(e, size, OB_RAW, OB_RAW + RAW_SIZE);
    PrefixSlice(e, size, PAYLOAD, size);
    assert out[PAYLOAD..] == out[PAYLOAD..size];
    DirectFlags(e, call, q, n);
    assert Field(out, RECORD_FLAGS, 2) == Field(e, RECORD_FLAGS, 2);
    WholeIsValid(out, e, call, q, n);
  }

  lemma DirectFlags(e: bytes, call: AuditCall, q: nat, n: nat)
    requires call.Readable() && MainImage(e, call, q, n) && HasHeader(e)
    requires |call.sql.Text()| <= MAIN_SQL_MAX && |call.params.Text()| <= MAIN_PARAMS_MAX
    ensures HasFlag(Field(e, RECORD_FLAGS, 2), LOGICAL_COMPLETE)
  {
    hide Field, Names, UserString.Text;
  }
}
