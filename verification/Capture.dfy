/** The probe: packs one audit call into a main record and at most one fragment per field. */
module Capture {
  import opened Bytes
  import opened AuditRecord

  /** A string as the observed process holds it: a pointer that may be null, and a signed length. */
  datatype UserString = UserString(isNull: bool, len: int, memory: bytes) {
    /** The memory behind the pointer is readable, and the length is a 64-bit signed number. */
    predicate Readable()
    {
      len < U64 / 2 && (!isNull ==> len <= |memory|)
    }

    /** The bytes the string stands for; a null pointer or a length below one means none. */
    function Text(): bytes
      requires Readable()
    {
      if isNull || len <= 0 then [] else memory[..len]
    }
  }

  datatype AuditCall = AuditCall(user: UserString, proxy: UserString, tenant: UserString, db: UserString,
                                 sql: UserString, params: UserString, raw: bytes) {
    predicate Readable()
    {
      && user.Readable() && proxy.Readable() && tenant.Readable() && db.Readable()
      && sql.Readable() && params.Readable() && |raw| == RAW_SIZE
    }
  }

  function ClampLen(len: int, maxLen: nat): (r: nat)
    ensures len <= 0 ==> r == 0
    ensures len > 0 ==> r == Min(len, maxLen)
  {
    if len <= 0 then 0 else if len > maxLen then maxLen else len
  }

  /** `value & (bound - 1)` for a power of two `bound`. */
  function Mask(value: nat, bound: nat): nat
    requires bound > 0
  {
    value % bound
  }

  function Cut(s: bytes, n: nat): (r: bytes)
    ensures |r| == Min(|s|, n)
  {
    if |s| <= n then s else s[..n]
  }

  // The call's four names, as far as a record has room for them.

  function UserName(call: AuditCall): bytes
    requires call.Readable()
  {
    Cut(call.user.Text(), MAX_NAME_LEN - 1)
  }

  function ProxyUserName(call: AuditCall): bytes
    requires call.Readable()
  {
    Cut(call.proxy.Text(), MAX_NAME_LEN - 1)
  }

  function TenantName(call: AuditCall): bytes
    requires call.Readable()
  {
    Cut(call.tenant.Text(), MAX_NAME_LEN - 1)
  }

  function DbName(call: AuditCall): bytes
    requires call.Readable()
  {
    Cut(call.db.Text(), MAX_DB_NAME_LEN - 1)
  }

  function Names(call: AuditCall): bytes
    requires call.Readable()
  {
    UserName(call) + ProxyUserName(call) + TenantName(call) + DbName(call)
  }

  /** Each of the four length fields is the length of its own name. */
  predicate NameLengths(e: bytes, call: AuditCall)
    requires HasHeader(e) && call.Readable()
  {
    && Field(e, USER_NAME_LEN, 4) == |UserName(call)| && Field(e, PROXY_USER_NAME_LEN, 4) == |ProxyUserName(call)|
    && Field(e, TENANT_NAME_LEN, 4) == |TenantName(call)| && Field(e, DB_NAME_LEN, 4) == |DbName(call)|
  }

  lemma NamesLenIs(e: bytes, call: AuditCall)
    requires HasHeader(e) && call.Readable() && NameLengths(e, call)
    ensures NamesLen(e) == |Names(call)|
  {
    hide Field, Cut, UserString.Text;
  }

  function FirstSql(call: AuditCall): bytes
    requires call.Readable()
  {
    Cut(call.sql.Text(), MAIN_SQL_MAX)
  }

  function FirstParams(call: AuditCall): bytes
    requires call.Readable()
  {
    Cut(call.params.Text(), MAIN_PARAMS_MAX)
  }

  function Flags(sqlLen: nat, paramsLen: nat): nat
  {
    (if sqlLen > MAIN_SQL_MAX then SQL_FRAGMENTED else 0) + (if sqlLen > CAPTURE_MAX then SQL_TRUNCATED else 0)
    + (if paramsLen > MAIN_PARAMS_MAX then PARAMS_FRAGMENTED else 0)
    + (if paramsLen > CAPTURE_MAX then PARAMS_TRUNCATED else 0)
  }

  /** The flags say exactly which field was cut into pieces. */
  lemma FlagsTell(sqlLen: nat, paramsLen: nat)
    ensures HasFlag(Flags(sqlLen, paramsLen), SQL_FRAGMENTED) <==> sqlLen > MAIN_SQL_MAX
    ensures HasFlag(Flags(sqlLen, paramsLen), PARAMS_FRAGMENTED) <==> paramsLen > MAIN_PARAMS_MAX
    ensures HasFlag(Flags(sqlLen, paramsLen), SQL_TRUNCATED) <==> sqlLen > CAPTURE_MAX
    ensures HasFlag(Flags(sqlLen, paramsLen), PARAMS_TRUNCATED) <==> paramsLen > CAPTURE_MAX
  {
  }

  function NextField(sqlLen: nat, paramsLen: nat): nat
  {
    if sqlLen > MAIN_SQL_MAX then 1 else if paramsLen > MAIN_PARAMS_MAX then 2 else 0
  }

  function RecordFlags(sqlLen: nat, paramsLen: nat): nat
  {
    (if sqlLen > CAPTURE_MAX || paramsLen > CAPTURE_MAX then 0 else PHYSICAL_COMPLETE)
    + (if sqlLen > MAIN_SQL_MAX || paramsLen > MAIN_PARAMS_MAX then 0 else LOGICAL_COMPLETE)
  }

  /** What a finished main record of `call` looks like in memory. */
  ghost predicate MainImage(e: bytes, call: AuditCall, mainSeq: nat, nextSeq: nat)
    requires call.Readable()
  {
    var sqlLen, paramsLen := |call.sql.Text()|, |call.params.Text()|;
    var payload := Names(call) + FirstSql(call) + FirstParams(call);
    && |e| == MAIN_BUCKET
    && PAYLOAD + |payload| <= MAIN_BUCKET
    && Field(e, TOTAL_SIZE, 4) == PAYLOAD + |payload|
    && Field(e, RECORD_TYPE, 2) == EVENT_RECORD
    && Field(e, RECORD_FLAGS, 2) == RecordFlags(sqlLen, paramsLen)
    && Field(e, EVENT_SEQ, 8) == mainSeq && Field(e, PARENT_SEQ, 8) == 0
    && Field(e, NEXT_FRAGMENT_FIELD, 4) == NextField(sqlLen, paramsLen)
    && Field(e, NEXT_FRAGMENT_SEQ, 8) == nextSeq
    && Field(e, QUERY_SQL_LEN, 8) == sqlLen
    && Field(e, PARAMS_VALUE_LEN, 8) == paramsLen
    && NameLengths(e, call)
    && Field(e, SQL_PAYLOAD_LEN, 4) == |FirstSql(call)|
    && Field(e, PARAMS_PAYLOAD_LEN, 4) == |FirstParams(call)|
    && Field(e, FRAGMENT_FLAGS, 4) == Flags(sqlLen, paramsLen)
    && e[OB_RAW..OB_RAW + RAW_SIZE] == call.raw
    && e[PAYLOAD..PAYLOAD + |payload|] == payload
  }

  /** The fragments of `call`, in the order the probe emits them. Only the last one is a tail. */
  function Fragments(call: AuditCall, mainSeq: nat, sqlSeq: nat, paramsSeq: nat): seq<KernelRecord>
    requires call.Readable()
  {
    var sql, params := call.sql.Text(), call.params.Text();
    (if |sql| > MAIN_SQL_MAX then
       [FragmentOf(QuerySql, sql, MAIN_SQL_MAX, mainSeq, sqlSeq, if |params| > MAIN_PARAMS_MAX then paramsSeq else 0)]
     else [])
    + (if |params| > MAIN_PARAMS_MAX then [FragmentOf(ParamsValue, params, MAIN_PARAMS_MAX, mainSeq, paramsSeq, 0)]
       else [])
  }

  function FragmentOf(field: FragmentField, text: bytes, first: nat, mainSeq: nat, ownSeq: nat,
                      nextSeq: nat): KernelRecord
    requires first < |text| && first < CAPTURE_MAX
  {
    var payload := Cut(text, CAPTURE_MAX)[first..];
    FragmentRecord(FRAGMENT_HEADER + |payload|, if nextSeq == 0 then 4 + LAST_FRAGMENT + LOGICAL_COMPLETE else 4,
                   ownSeq, mainSeq, nextSeq, field, first, |payload|, payload)
  }

  /** For every length: each mask leaves the clamped or running value alone, the main record fits its
    * bucket, and one fragment covers all that is left of a field up to the capture limit. */
  lemma CaptureArithmetic(userLen: int, proxyLen: int, tenantLen: int, dbLen: int, sqlLen: int, paramsLen: int)
    ensures var user, proxy, tenant, db := ClampLen(userLen, 63), ClampLen(proxyLen, 63), ClampLen(tenantLen, 63),
      ClampLen(dbLen, 127);
            var sql, params := ClampLen(sqlLen, MAIN_SQL_MAX), ClampLen(paramsLen, MAIN_PARAMS_MAX);
            && Mask(user, 64) == user && Mask(proxy, 64) == proxy && Mask(tenant, 64) == tenant && Mask(db, 128) == db
            && Mask(sql, 1024) == sql && Mask(params, 256) == params
            && Mask(user + proxy + tenant + db + sql, 2048) == user + proxy + tenant + db + sql
            && PAYLOAD + user + proxy + tenant + db + sql + params <= MAIN_BUCKET < SIZEOF_EVENT
            && (sqlLen > MAIN_SQL_MAX ==>
                 sql == MAIN_SQL_MAX && 0 < ClampLen(sqlLen, CAPTURE_MAX) - sql <= FRAGMENT_PAYLOAD_MAX)
            && (paramsLen > MAIN_PARAMS_MAX ==>
                  params == MAIN_PARAMS_MAX && 0 < ClampLen(paramsLen, CAPTURE_MAX) - params <= FRAGMENT_PAYLOAD_MAX)
  {
  }

  /** A main record always passes the agent's validity test and is not larger than its bucket. */
  lemma MainImageValid(e: bytes, call: AuditCall, mainSeq: nat, nextSeq: nat)
    requires call.Readable() && MainImage(e, call, mainSeq, nextSeq)
    ensures HasHeader(e) && CompactSizeValid(e) && Field(e, TOTAL_SIZE, 4) <= |e| == MAIN_BUCKET
  {
    hide Field, Names, Flags, UserString.Text;
    NamesLenIs(e, call);
  }

  /** Whoever reads the main record finds each of the call's names under its own accessor, and the first pieces of SQL
    * and params. */
  lemma MainReads(e: bytes, call: AuditCall, mainSeq: nat, nextSeq: nat)
    requires call.Readable() && MainImage(e, call, mainSeq, nextSeq)
    ensures Readable(e) && UserNameOf(e) == UserName(call) && ProxyUserNameOf(e) == ProxyUserName(call)
    ensures TenantNameOf(e) == TenantName(call) && DbNameOf(e) == DbName(call)
    ensures QuerySqlOf(e) == FirstSql(call) && ParamsOf(e) == FirstParams(call)
  {
    hide Field, UserString.Text, Flags, RecordFlags, NextField, Cut;
    var names, sql, params := Names(call), FirstSql(call), FirstParams(call);
    var payload := names + sql + params;
    var tail := e[PAYLOAD..];
    assert tail[..|payload|] == payload;
    assert UserName(call) + ProxyUserName(call) + TenantName(call) + DbName(call) + sql + params == payload;
    ReadsBack(e, UserName(call), ProxyUserName(call), TenantName(call), DbName(call), sql, params);
  }

  /** What the record flags mean: no field was cut off at the capture limit, and none continues in a fragment. */
  lemma RecordFlagsTell(sqlLen: nat, paramsLen: nat)
    ensures HasFlag(RecordFlags(sqlLen, paramsLen), PHYSICAL_COMPLETE) <==>
              sqlLen <= CAPTURE_MAX && paramsLen <= CAPTURE_MAX
    ensures HasFlag(RecordFlags(sqlLen, paramsLen), LOGICAL_COMPLETE)
            <==> sqlLen <= MAIN_SQL_MAX && paramsLen <= MAIN_PARAMS_MAX
  {
  }

  /** The code of a field in `next_fragment_field`. */
  function FieldCode(field: FragmentField): nat
  {
    match field
    case NoField => 0
    case QuerySql => 1
    case ParamsValue => 2
  }

  /** The records of a call are chained: the main record names the field of the first fragment and its number, each
    * fragment its parent and the number of the next one, and the last of them nothing. */
  lemma ChainTells(call: AuditCall, q: Numbers)
    requires call.Readable()
    ensures var fs := Fragments(call, q.main, q.sql, q.params);
            && NextField(|call.sql.Text()|, |call.params.Text()|) == (if fs == [] then 0 else FieldCode(fs[0].field))
            && NextOf(call, q.sql, q.params) == (if fs == [] then 0 else fs[0].eventSeq)
            && (forall i :: 0 <= i < |fs| ==>
                  && fs[i].parentSeq == q.main
                  && fs[i].nextSeq == (if i + 1 < |fs| then fs[i + 1].eventSeq else 0))
  {
    hide UserString.Text, Cut;
  }

  lemma PowerValues()
    ensures Pow256(2) == 0x1_0000 && Pow256(4) == U32 && Pow256(8) == U64
  {
    assert Pow256(1) == 256 && Pow256(2) == 256 * 256 && Pow256(3) == 256 * Pow256(2) && Pow256(4) == 256 * Pow256(3);
    assert Pow256(5) == 256 * Pow256(4) && Pow256(6) == 256 * Pow256(5) && Pow256(7) == 256 * Pow256(6);
  }

  /** A store to one field of the record under construction. */
  method StoreField(e: array<byte>, off: nat, n: nat, v: nat)
    requires off + n <= e.Length
    modifies e
    ensures e[..] == Put(old(e[..]), off, n, v)
  {
    var data := ToLE(v, n);
    forall i | 0 <= i < n {
      e[off + i] := data[i];
    }
    assert e[off..off + n] == data;
  }

  /** A read of observed memory into the record. */
  method ReadInto(e: array<byte>, at: nat, data: bytes)
    requires at + |data| <= e.Length
    modifies e
    ensures e[..] == Splice(old(e[..]), at, data)
  {
    forall i | 0 <= i < |data| {
      e[at + i] := data[i];
    }
    assert e[at..at + |data|] == data;
  }

  /** The record after one more string behind `len` payload bytes, with its length recorded. */
  function Append(e: bytes, len: nat, data: bytes, lenField: nat): (r: bytes)
    requires PAYLOAD + len + |data| <= |e| && lenField + 4 <= OB_RAW
    ensures |r| == |e|
  {
    Put(Splice(e, PAYLOAD + len, data), lenField, 4, |data|)
  }

  lemma AppendKeeps(e: bytes, len: nat, data: bytes, lenField: nat)
    requires PAYLOAD + len + |data| <= |e| && lenField + 4 <= OB_RAW && |data| < U32
    ensures var r := Append(e, len, data, lenField);
            && r[PAYLOAD..PAYLOAD + len + |data|] == e[PAYLOAD..PAYLOAD + len] + data
            && r[OB_RAW..OB_RAW + RAW_SIZE] == e[OB_RAW..OB_RAW + RAW_SIZE]
            && Field(r, lenField, 4) == |data|
            && forall o: nat, m: nat {:trigger Field(r, o, m)} ::
                 o + m <= PAYLOAD && (o + m <= lenField || lenField + 4 <= o) ==> Field(r, o, m) == Field(e, o, m)
  {
    hide FromLE, ToLE, Pow256;
    PowerValues();
    var mid := Splice(e, PAYLOAD + len, data);
    PutField(mid, lenField, 4, |data|);
    SpliceExtends(e, PAYLOAD + len, data, PAYLOAD);
    SpliceKeeps(mid, lenField, ToLE(|data|, 4), PAYLOAD, PAYLOAD + len + |data|);
    SpliceKeeps(e, PAYLOAD + len, data, OB_RAW, OB_RAW + RAW_SIZE);
    SpliceKeeps(mid, lenField, ToLE(|data|, 4), OB_RAW, OB_RAW + RAW_SIZE);
    forall o: nat, m: nat | o + m <= PAYLOAD
      ensures Field(mid, o, m) == Field(e, o, m)
    {
      SpliceKeeps(e, PAYLOAD + len, data, o, o + m);
    }
  }

  /** The bytes the probe reads for one string: its clamped and masked length, from its pointer. */
  function ReadText(text: UserString, maxLen: nat, mask: nat): (data: bytes)
    requires text.Readable() && maxLen + 1 == mask
    ensures data == Cut(text.Text(), maxLen)
  {
    var len := if text.isNull || text.len <= 0 then 0 else text.len;
    var copied := Mask(ClampLen(len, maxLen), mask);
    CopiedText(text, maxLen, mask, copied);
    if copied == 0 then [] else text.memory[..copied]
  }

  lemma CopiedText(text: UserString, maxLen: nat, mask: nat, copied: nat)
    requires text.Readable() && maxLen + 1 == mask
    requires copied == Mask(ClampLen(if text.isNull || text.len <= 0 then 0 else text.len, maxLen), mask)
    ensures copied == 0 ==> Cut(text.Text(), maxLen) == []
    ensures copied > 0 ==> copied <= |text.memory| && text.memory[..copied] == Cut(text.Text(), maxLen)
  {
    hide Mask, ClampLen;
    var len := if text.isNull || text.len <= 0 then 0 else text.len;
    MaskSmall(ClampLen(len, maxLen), mask);
    assert copied == Min(len, maxLen);
    if copied > 0 {
      CutOfPart(text.memory, len, maxLen);
    }
  }

  lemma MaskSmall(value: nat, bound: nat)
    requires value < bound
    ensures Mask(value, bound) == value
  {
  }

  lemma CutOfPart(s: bytes, len: nat, most: nat)
    requires len <= |s|
    ensures s[..Min(len, most)] == Cut(s[..len], most)
  {
  }

  /** Copies one string behind the payload written so far and records its length. */
  method AppendString(e: array<byte>, payloadLen: nat, data: bytes, lenField: nat) returns (newLen: nat)
    requires PAYLOAD + payloadLen + |data| <= e.Length && lenField + 4 <= OB_RAW
    modifies e
    ensures newLen == payloadLen + |data|
    ensures e[..] == Append(old(e[..]), payloadLen, data, lenField)
  {
    hide Put, Splice;
    ReadInto(e, PAYLOAD + payloadLen, data);
    StoreField(e, lenField, 4, |data|);
    newLen := payloadLen + |data|;
  }

  method PackNames(e: array<byte>, call: AuditCall) returns (payloadLen: nat)
    requires call.Readable() && e.Length == MAIN_BUCKET
    modifies e
    ensures payloadLen == |Names(call)|
    ensures e[..] == PackedNames(old(e[..]), call)
  {
    hide Appended, Cut, ReadText, UserString.Text;
    var user, proxy := ReadText(call.user, MAX_NAME_LEN - 1, 64), ReadText(call.proxy, MAX_NAME_LEN - 1, 64);
    var tenant, db := ReadText(call.tenant, MAX_NAME_LEN - 1, 64), ReadText(call.db, MAX_DB_NAME_LEN - 1, 128);
    payloadLen := AppendNames(e, user, proxy, tenant, db);
  }

  method AppendNames(e: array<byte>, user: bytes, proxy: bytes, tenant: bytes, db: bytes) returns (payloadLen: nat)
    requires e.Length == MAIN_BUCKET && |user| < 64 && |proxy| < 64 && |tenant| < 64 && |db| < 128
    modifies e
    ensures payloadLen == |user| + |proxy| + |tenant| + |db|
    ensures e[..] == Appended(old(e[..]), user, proxy, tenant, db)
  {
    hide Append, Mask;
    payloadLen := AppendMasked(e, 0, user, USER_NAME_LEN);
    payloadLen := AppendMasked(e, payloadLen, proxy, PROXY_USER_NAME_LEN);
    payloadLen := AppendMasked(e, payloadLen, tenant, TENANT_NAME_LEN);
    payloadLen := AppendMasked(e, payloadLen, db, DB_NAME_LEN);
  }

  method AppendMasked(e: array<byte>, payloadLen: nat, data: bytes, lenField: nat) returns (newLen: nat)
    requires PAYLOAD + payloadLen + |data| <= e.Length && lenField + 4 <= OB_RAW && payloadLen + |data| < 2048
    modifies e
    ensures newLen == payloadLen + |data|
    ensures e[..] == Append(old(e[..]), payloadLen, data, lenField)
  {
    hide Append, Mask;
    newLen := AppendString(e, payloadLen, data, lenField);
    MaskSmall(newLen, 2048);
    newLen := Mask(newLen, 2048);
  }

  /** The four names, the first piece of the SQL and the first piece of the params. */
  method PackPayload(e: array<byte>, call: AuditCall) returns (payloadLen: nat)
    requires call.Readable() && e.Length == MAIN_BUCKET
    modifies e
    ensures payloadLen == |Names(call)| + |FirstSql(call)| + |FirstParams(call)|
    ensures e[..] == PackedPayload(old(e[..]), call)
  {
    hide Append, Cut, PackedNames, Names, ReadText;
    NamesShort(call);
    payloadLen := PackNames(e, call);
    payloadLen := AppendString(e, payloadLen, ReadText(call.sql, MAIN_SQL_MAX, 1024), SQL_PAYLOAD_LEN);
    payloadLen := Mask(payloadLen, 2048);
    payloadLen := AppendString(e, payloadLen, ReadText(call.params, MAIN_PARAMS_MAX, 256), PARAMS_PAYLOAD_LEN);
  }

  lemma NamesShort(call: AuditCall)
    requires call.Readable()
    ensures |Names(call)| <= 3 * 63 + 127
  {
  }

  /** Four pieces, one behind the other. */
  function Appended(e: bytes, user: bytes, proxy: bytes, tenant: bytes, db: bytes): (r: bytes)
    requires |e| == MAIN_BUCKET && |user| < 64 && |proxy| < 64 && |tenant| < 64 && |db| < 128
    ensures |r| == |e|
  {
    var e1 := Append(e, 0, user, USER_NAME_LEN);
    var e2 := Append(e1, |user|, proxy, PROXY_USER_NAME_LEN);
    var e3 := Append(e2, |user| + |proxy|, tenant, TENANT_NAME_LEN);
    Append(e3, |user| + |proxy| + |tenant|, db, DB_NAME_LEN)
  }

  function PackedNames(e: bytes, call: AuditCall): (r: bytes)
    requires call.Readable() && |e| == MAIN_BUCKET
    ensures |r| == MAIN_BUCKET
  {
    Appended(e, UserName(call), ProxyUserName(call), TenantName(call), DbName(call))
  }

  function PackedPayload(e: bytes, call: AuditCall): (r: bytes)
    requires call.Readable() && |e| == MAIN_BUCKET
    ensures |r| == MAIN_BUCKET
  {
    NamesShort(call);
    var e1 := Append(PackedNames(e, call), |Names(call)|, FirstSql(call), SQL_PAYLOAD_LEN);
    Append(e1, |Names(call)| + |FirstSql(call)|, FirstParams(call), PARAMS_PAYLOAD_LEN)
  }

  /** Header fields outside a range keep their values. */
  ghost predicate KeepsFields(e: bytes, r: bytes, from: nat, to: nat)
    requires HasHeader(e) && HasHeader(r)
  {
    forall o: nat, m: nat {:trigger Field(r, o, m)} ::
      o + m <= PAYLOAD && (o + m <= from || to <= o) ==> Field(r, o, m) == Field(e, o, m)
  }

  lemma AppendParts(e: bytes, len: nat, data: bytes, lenField: nat)
    requires PAYLOAD + len + |data| <= |e| && lenField + 4 <= OB_RAW && |data| < U32
    ensures var r := Append(e, len, data, lenField);
            && r[PAYLOAD..PAYLOAD + len + |data|] == e[PAYLOAD..PAYLOAD + len] + data
            && r[OB_RAW..OB_RAW + RAW_SIZE] == e[OB_RAW..OB_RAW + RAW_SIZE]
            && Field(r, lenField, 4) == |data| && KeepsFields(e, r, lenField, lenField + 4)
  {
    hide Append, Field;
    AppendKeeps(e, len, data, lenField);
  }

  lemma FieldStays(e: bytes, r: bytes, from: nat, to: nat, o: nat, m: nat)
    requires HasHeader(e) && HasHeader(r) && KeepsFields(e, r, from, to)
    requires o + m <= PAYLOAD && (o + m <= from || to <= o)
    ensures Field(r, o, m) == Field(e, o, m)
  {
    hide Field;
  }

  lemma KeepsJoin(e: bytes, f: bytes, r: bytes, from: nat, mid: nat, to: nat)
    requires HasHeader(e) && HasHeader(f) && HasHeader(r) && from <= mid <= to
    requires KeepsFields(e, f, from, mid) && KeepsFields(f, r, mid, to)
    ensures KeepsFields(e, r, from, to)
  {
    hide Field;
    forall o: nat, m: nat | o + m <= PAYLOAD && (o + m <= from || to <= o)
      ensures Field(r, o, m) == Field(e, o, m)
    {
      assert Field(f, o, m) == Field(e, o, m);
    }
  }

  /** One piece more behind what is there. */
  lemma PieceBehind(e: bytes, have: bytes, data: bytes, lenField: nat)
    requires PAYLOAD + |have| + |data| <= |e| && lenField + 4 <= OB_RAW && |data| < U32
    requires e[PAYLOAD..PAYLOAD + |have|] == have
    ensures var r := Append(e, |have|, data, lenField);
            && r[PAYLOAD..PAYLOAD + |have + data|] == have + data
            && r[OB_RAW..OB_RAW + RAW_SIZE] == e[OB_RAW..OB_RAW + RAW_SIZE]
  {
    hide Append, Field, KeepsFields;
    AppendParts(e, |have|, data, lenField);
  }

  /** `got` begins with the piece and keeps the statement that was saved. */
  predicate Holds(got: bytes, e: bytes, piece: bytes)
    requires |got| == |e| == MAIN_BUCKET && PAYLOAD + |piece| <= MAIN_BUCKET
  {
    got[PAYLOAD..PAYLOAD + |piece|] == piece && got[OB_RAW..OB_RAW + RAW_SIZE] == e[OB_RAW..OB_RAW + RAW_SIZE]
  }

  lemma HoldsMore(e0: bytes, e: bytes, have: bytes, data: bytes, lenField: nat)
    requires |e0| == |e| == MAIN_BUCKET && PAYLOAD + |have| + |data| <= MAIN_BUCKET && lenField + 4 <= OB_RAW
    requires |data| < U32 && Holds(e, e0, have)
    ensures Holds(Append(e, |have|, data, lenField), e0, have + data)
  {
    hide Append, Field;
    PieceBehind(e, have, data, lenField);
  }

  lemma AppendedPieces(e: bytes, user: bytes, proxy: bytes, tenant: bytes, db: bytes)
    requires |e| == MAIN_BUCKET && |user| < 64 && |proxy| < 64 && |tenant| < 64 && |db| < 128
    ensures Holds(Appended(e, user, proxy, tenant, db), e, user + proxy + tenant + db)
  {
    hide Append, Holds;
    var e1 := Append(e, 0, user, USER_NAME_LEN);
    var e2 := Append(e1, |user|, proxy, PROXY_USER_NAME_LEN);
    var e3 := Append(e2, |user| + |proxy|, tenant, TENANT_NAME_LEN);
    assert Holds(e, e, []) by {
      NothingYet(e);
    }
    assert [] + user == user;
    HoldsMore(e, e, [], user, USER_NAME_LEN);
    HoldsMore(e, e1, user, proxy, PROXY_USER_NAME_LEN);
    HoldsMore(e, e2, user + proxy, tenant, TENANT_NAME_LEN);
    HoldsMore(e, e3, user + proxy + tenant, db, DB_NAME_LEN);
  }

  lemma NothingYet(e: bytes)
    requires |e| == MAIN_BUCKET
    ensures Holds(e, e, [])
  {
  }

  lemma AppendedFields(e: bytes, user: bytes, proxy: bytes, tenant: bytes, db: bytes)
    requires |e| == MAIN_BUCKET && |user| < 64 && |proxy| < 64 && |tenant| < 64 && |db| < 128
    ensures var r := Appended(e, user, proxy, tenant, db);
            && Field(r, USER_NAME_LEN, 4) == |user| && Field(r, PROXY_USER_NAME_LEN, 4) == |proxy|
            && Field(r, TENANT_NAME_LEN, 4) == |tenant| && Field(r, DB_NAME_LEN, 4) == |db|
            && KeepsFields(e, r, USER_NAME_LEN, SQL_PAYLOAD_LEN)
  {
    hide Append, Field, KeepsFields;
    var e1 := Append(e, 0, user, USER_NAME_LEN);
    var e2 := Append(e1, |user|, proxy, PROXY_USER_NAME_LEN);
    var e3 := Append(e2, |user| + |proxy|, tenant, TENANT_NAME_LEN);
    var e4 := Append(e3, |user| + |proxy| + |tenant|, db, DB_NAME_LEN);
    AppendParts(e, 0, user, USER_NAME_LEN);
    AppendParts(e1, |user|, proxy, PROXY_USER_NAME_LEN);
    AppendParts(e2, |user| + |proxy|, tenant, TENANT_NAME_LEN);
    AppendParts(e3, |user| + |proxy| + |tenant|, db, DB_NAME_LEN);
    KeepsJoin(e2, e3, e4, TENANT_NAME_LEN, DB_NAME_LEN, SQL_PAYLOAD_LEN);
    KeepsJoin(e1, e2, e4, PROXY_USER_NAME_LEN, TENANT_NAME_LEN, SQL_PAYLOAD_LEN);
    KeepsJoin(e, e1, e4, USER_NAME_LEN, PROXY_USER_NAME_LEN, SQL_PAYLOAD_LEN);
    FieldStays(e1, e4, PROXY_USER_NAME_LEN, SQL_PAYLOAD_LEN, USER_NAME_LEN, 4);
    FieldStays(e2, e4, TENANT_NAME_LEN, SQL_PAYLOAD_LEN, PROXY_USER_NAME_LEN, 4);
    FieldStays(e3, e4, DB_NAME_LEN, SQL_PAYLOAD_LEN, TENANT_NAME_LEN, 4);
  }

  lemma PackedNamesHolds(e: bytes, call: AuditCall)
    requires call.Readable() && |e| == MAIN_BUCKET
    ensures var r := PackedNames(e, call);
            && r[PAYLOAD..PAYLOAD + |Names(call)|] == Names(call)
            && NameLengths(r, call)
            && r[OB_RAW..OB_RAW + RAW_SIZE] == e[OB_RAW..OB_RAW + RAW_SIZE]
            && KeepsFields(e, r, USER_NAME_LEN, SQL_PAYLOAD_LEN)
  {
    hide Appended, Cut, Field, KeepsFields, UserString.Text;
    AppendedPieces(e, UserName(call), ProxyUserName(call), TenantName(call), DbName(call));
    AppendedFields(e, UserName(call), ProxyUserName(call), TenantName(call), DbName(call));
  }

  /** The packed payload is the names and first pieces in order, with their lengths recorded; the raw
    * region and every other header field stay. */
  lemma PackedPayloadHolds(e: bytes, call: AuditCall)
    requires call.Readable() && |e| == MAIN_BUCKET
    ensures var r, payload := PackedPayload(e, call), Names(call) + FirstSql(call) + FirstParams(call);
            && PAYLOAD + |payload| <= MAIN_BUCKET
            && r[PAYLOAD..PAYLOAD + |payload|] == payload
            && NameLengths(r, call)
            && Field(r, SQL_PAYLOAD_LEN, 4) == |FirstSql(call)|
            && Field(r, PARAMS_PAYLOAD_LEN, 4) == |FirstParams(call)|
            && r[OB_RAW..OB_RAW + RAW_SIZE] == e[OB_RAW..OB_RAW + RAW_SIZE]
            && forall o: nat, m: nat {:trigger Field(r, o, m)} ::
                 o + m <= PAYLOAD && (o + m <= USER_NAME_LEN || PARAMS_PAYLOAD_LEN + 4 <= o) ==>
                   Field(r, o, m) == Field(e, o, m)
  {
    hide Append, Cut, Field, PackedNames, Names;
    NamesShort(call);
    PackedNamesHolds(e, call);
    var e0 := PackedNames(e, call);
    AppendKeeps(e0, |Names(call)|, FirstSql(call), SQL_PAYLOAD_LEN);
    AppendKeeps(Append(e0, |Names(call)|, FirstSql(call), SQL_PAYLOAD_LEN), |Names(call)| + |FirstSql(call)|,
                FirstParams(call), PARAMS_PAYLOAD_LEN);
  }

  /** The header before the payload is packed. */
  function Stamped(e: bytes, sqlLen: nat, paramsLen: nat, mainSeq: nat): (r: bytes)
    requires |e| == MAIN_BUCKET
    ensures |r| == MAIN_BUCKET
  {
    var e1 := Put(e, RECORD_TYPE, 2, EVENT_RECORD);
    var e2 := Put(e1, RECORD_FLAGS, 2, 0);
    var e3 := Put(e2, EVENT_SEQ, 8, mainSeq);
    var e4 := Put(e3, PARENT_SEQ, 8, 0);
    var e5 := Put(e4, NEXT_FRAGMENT_SEQ, 8, 0);
    var e6 := Put(e5, QUERY_SQL_LEN, 8, sqlLen);
    var e7 := Put(e6, PARAMS_VALUE_LEN, 8, paramsLen);
    var e8 := Put(e7, FRAGMENT_FLAGS, 4, Flags(sqlLen, paramsLen));
    Put(e8, NEXT_FRAGMENT_FIELD, 4, NextField(sqlLen, paramsLen))
  }

  lemma PutHeader(e: bytes, off: nat, n: nat, v: nat)
    requires PAYLOAD <= |e| && off + n <= OB_RAW && v < Pow256(n)
    ensures Field(Put(e, off, n, v), off, n) == v
    ensures forall o: nat, m: nat {:trigger Field(Put(e, off, n, v), o, m)} ::
              o + m <= |e| && (o + m <= off || off + n <= o) ==> Field(Put(e, off, n, v), o, m) == Field(e, o, m)
    ensures Put(e, off, n, v)[OB_RAW..] == e[OB_RAW..]
  {
    PutField(e, off, n, v);
    SpliceKeeps(e, off, ToLE(v, n), OB_RAW, |e|);
  }

  lemma StampedHolds(e: bytes, sqlLen: nat, paramsLen: nat, mainSeq: nat)
    requires |e| == MAIN_BUCKET && sqlLen < U64 && paramsLen < U64 && mainSeq < U64
    ensures var r := Stamped(e, sqlLen, paramsLen, mainSeq);
            && Field(r, RECORD_TYPE, 2) == EVENT_RECORD
            && Field(r, EVENT_SEQ, 8) == mainSeq && Field(r, PARENT_SEQ, 8) == 0
            && Field(r, QUERY_SQL_LEN, 8) == sqlLen
            && Field(r, PARAMS_VALUE_LEN, 8) == paramsLen
            && Field(r, FRAGMENT_FLAGS, 4) == Flags(sqlLen, paramsLen)
            && Field(r, NEXT_FRAGMENT_FIELD, 4) == NextField(sqlLen, paramsLen)
            && r[OB_RAW..] == e[OB_RAW..]
  {
    PowerValues();
    hide Put, Field, Flags, NextField, Pow256;
    assert Flags(sqlLen, paramsLen) < 16 && NextField(sqlLen, paramsLen) < 3 by {
      FlagsSmall(sqlLen, paramsLen);
    }
    PutHeader(e, RECORD_TYPE, 2, EVENT_RECORD);
    var e1 := Put(e, RECORD_TYPE, 2, EVENT_RECORD);
    PutHeader(e1, RECORD_FLAGS, 2, 0);
    var e2 := Put(e1, RECORD_FLAGS, 2, 0);
    PutHeader(e2, EVENT_SEQ, 8, mainSeq);
    var e3 := Put(e2, EVENT_SEQ, 8, mainSeq);
    PutHeader(e3, PARENT_SEQ, 8, 0);
    var e4 := Put(e3, PARENT_SEQ, 8, 0);
    PutHeader(e4, NEXT_FRAGMENT_SEQ, 8, 0);
    var e5 := Put(e4, NEXT_FRAGMENT_SEQ, 8, 0);
    PutHeader(e5, QUERY_SQL_LEN, 8, sqlLen);
    var e6 := Put(e5, QUERY_SQL_LEN, 8, sqlLen);
    PutHeader(e6, PARAMS_VALUE_LEN, 8, paramsLen);
    var e7 := Put(e6, PARAMS_VALUE_LEN, 8, paramsLen);
    PutHeader(e7, FRAGMENT_FLAGS, 4, Flags(sqlLen, paramsLen));
    PutHeader(Put(e7, FRAGMENT_FLAGS, 4, Flags(sqlLen, paramsLen)), NEXT_FRAGMENT_FIELD, 4,
              NextField(sqlLen, paramsLen));
  }

  lemma FlagsSmall(sqlLen: nat, paramsLen: nat)
    ensures Flags(sqlLen, paramsLen) < 16 && NextField(sqlLen, paramsLen) < 3 && RecordFlags(sqlLen, paramsLen) < 4
  {
  }

  /** The header after the payload is packed. */
  function Sealed(e: bytes, recordFlags: nat, nextSeq: nat, total: nat): (r: bytes)
    requires |e| == MAIN_BUCKET
    ensures |r| == MAIN_BUCKET
  {
    Put(Put(Put(e, RECORD_FLAGS, 2, recordFlags), NEXT_FRAGMENT_SEQ, 8, nextSeq), TOTAL_SIZE, 4, total)
  }

  lemma SealedHolds(e: bytes, recordFlags: nat, nextSeq: nat, total: nat)
    requires |e| == MAIN_BUCKET && recordFlags < 4 && nextSeq < U64 && total < U32
    ensures var r := Sealed(e, recordFlags, nextSeq, total);
            && Field(r, RECORD_FLAGS, 2) == recordFlags
            && Field(r, NEXT_FRAGMENT_SEQ, 8) == nextSeq
            && Field(r, TOTAL_SIZE, 4) == total
            && r[OB_RAW..] == e[OB_RAW..]
            && forall o: nat, m: nat {:trigger Field(r, o, m)} ::
                 ((NEXT_FRAGMENT_SEQ + 8 <= o && o + m <= PAYLOAD) || (o == EVENT_SEQ && m == 8)
                  || (o == PARENT_SEQ && m == 8) || (o == RECORD_TYPE && m == 2))
                 ==> Field(r, o, m) == Field(e, o, m)
  {
    PowerValues();
    hide Put, Field, Pow256;
    PutHeader(e, RECORD_FLAGS, 2, recordFlags);
    var e1 := Put(e, RECORD_FLAGS, 2, recordFlags);
    PutHeader(e1, NEXT_FRAGMENT_SEQ, 8, nextSeq);
    PutHeader(Put(e1, NEXT_FRAGMENT_SEQ, 8, nextSeq), TOTAL_SIZE, 4, total);
  }

  /** The whole record, built from whatever memory the reserved bucket held. */
  function Built(e: bytes, call: AuditCall, mainSeq: nat, nextSeq: nat): (r: bytes)
    requires call.Readable() && |e| == MAIN_BUCKET
    ensures |r| == MAIN_BUCKET
  {
    var sqlLen, paramsLen := |call.sql.Text()|, |call.params.Text()|;
    var stamped := Stamped(Splice(e, OB_RAW, call.raw), sqlLen, paramsLen, mainSeq);
    Sealed(PackedPayload(stamped, call), RecordFlags(sqlLen, paramsLen), nextSeq,
           PAYLOAD + |Names(call)| + |FirstSql(call)| + |FirstParams(call)|)
  }

  lemma BuiltIsImage(e: bytes, call: AuditCall, mainSeq: nat, nextSeq: nat)
    requires call.Readable() && |e| == MAIN_BUCKET && mainSeq < U64 && nextSeq < U64
    ensures MainImage(Built(e, call, mainSeq, nextSeq), call, mainSeq, nextSeq)
  {
    hide Put, Field, Splice, Stamped, PackedPayload, Sealed, Names, Flags, RecordFlags, NextField;
    var sqlLen, paramsLen := |call.sql.Text()|, |call.params.Text()|;
    var payload := Names(call) + FirstSql(call) + FirstParams(call);
    var e0 := Splice(e, OB_RAW, call.raw);
    SpliceHolds(e, OB_RAW, call.raw);
    StampedHolds(e0, sqlLen, paramsLen, mainSeq);
    var e1 := Stamped(e0, sqlLen, paramsLen, mainSeq);
    PackedPayloadHolds(e1, call);
    var e2 := PackedPayload(e1, call);
    FlagsSmall(sqlLen, paramsLen);
    SealedHolds(e2, RecordFlags(sqlLen, paramsLen), nextSeq, PAYLOAD + |payload|);
    var r := Built(e, call, mainSeq, nextSeq);
    SameTail(r, e2, OB_RAW, RAW_SIZE);
    SameTail(r, e2, PAYLOAD, |payload|);
    SameTail(e1, e0, OB_RAW, RAW_SIZE);
  }

  lemma SameTail(e: bytes, f: bytes, off: nat, n: nat)
    requires |e| == |f| && OB_RAW <= off && off + n <= |e| && e[OB_RAW..] == f[OB_RAW..]
    ensures e[off..off + n] == f[off..off + n]
  {
    SliceOfSlice(e, OB_RAW, |e|, off, off + n);
    SliceOfSlice(f, OB_RAW, |f|, off, off + n);
    assert e[OB_RAW..|e|] == e[OB_RAW..] && f[OB_RAW..|f|] == f[OB_RAW..];
  }

  /** One fragment that carries everything left of a field, if the ring has room for it. */
  function EmitFragment(field: FragmentField, text: UserString, firstOffset: nat, mainSeq: nat, ownSeq: nat,
                        nextSeq: nat, room: bool): seq<KernelRecord>
    requires text.Readable()
  {
    if text.isNull || ownSeq == 0 then [] else
      var captureLen := ClampLen(text.len, CAPTURE_MAX);
      if firstOffset >= captureLen then [] else
        var copied := Mask(Min(captureLen - firstOffset, FRAGMENT_PAYLOAD_MAX), 65536);
        if copied == 0 || !room then [] else
          [FragmentRecord(FRAGMENT_HEADER + copied, if nextSeq == 0 then 4 + LAST_FRAGMENT + LOGICAL_COMPLETE else 4,
                          ownSeq, mainSeq, nextSeq, field, firstOffset, copied,
                            text.memory[firstOffset..firstOffset + copied])]
  }

  /** With room, a field longer than its first piece is completed by exactly one fragment. */
  lemma EmitCovers(field: FragmentField, text: UserString, first: nat, mainSeq: nat, ownSeq: nat, nextSeq: nat)
    requires text.Readable() && first < |text.Text()| && 0 < first && CAPTURE_MAX - first <= FRAGMENT_PAYLOAD_MAX
    requires first < CAPTURE_MAX && ownSeq > 0
    ensures EmitFragment(field, text, first, mainSeq, ownSeq, nextSeq, true)
         == [FragmentOf(field, text.Text(), first, mainSeq, ownSeq, nextSeq)]
    ensures Cut(text.Text(), first) + FragmentOf(field, text.Text(), first, mainSeq, ownSeq, nextSeq).payload
         == Cut(text.Text(), CAPTURE_MAX)
  {
    var copied := Min(ClampLen(text.len, CAPTURE_MAX) - first, FRAGMENT_PAYLOAD_MAX);
    assert text.memory[first..first + copied] == Cut(text.Text(), CAPTURE_MAX)[first..];
  }

  /** The fragments that found room in the ring. */
  function Surviving(fragments: seq<KernelRecord>, sqlRoom: bool, paramsRoom: bool): seq<KernelRecord>
  {
    if fragments == [] then []
    else
      var f := fragments[0];
      var keep := f.FragmentRecord? && (if f.field == QuerySql then sqlRoom else paramsRoom);
      (if keep then [f] else []) + Surviving(fragments[1..], sqlRoom, paramsRoom)
  }

  /** How many numbers other CPUs take before each of a call's own. */
  datatype Others = Others(main: nat, sql: nat, params: nat)

  /** The numbers of a call; those of fragments count only if there are such. */
  datatype Numbers = Numbers(main: nat, sql: nat, params: nat)

  predicate LongSql(call: AuditCall)
    requires call.Readable()
  {
    |call.sql.Text()| > MAIN_SQL_MAX
  }

  predicate LongParams(call: AuditCall)
    requires call.Readable()
  {
    |call.params.Text()| > MAIN_PARAMS_MAX
  }

  /** The numbers that a call gets when the counter stands at `start`. */
  function NumbersFrom(start: nat, call: AuditCall, others: Others): (r: Numbers)
    requires call.Readable()
    ensures start < r.main && (LongSql(call) ==> r.main < r.sql) && (LongParams(call) ==> r.main < r.params)
    ensures LongSql(call) && LongParams(call) ==> r.sql < r.params
  {
    var main := start + others.main + 1;
    var sql := if LongSql(call) then main + others.sql + 1 else 0;
    Numbers(main, sql, if !LongParams(call) then 0 else (if LongSql(call) then sql else main) + others.params + 1)
  }

  /** The number that the main record names as the next one. */
  function NextOf(call: AuditCall, sqlSeq: nat, paramsSeq: nat): nat
    requires call.Readable()
  {
    if LongSql(call) then sqlSeq else if LongParams(call) then paramsSeq else 0
  }

  lemma PayloadFits(call: AuditCall)
    requires call.Readable()
    ensures PAYLOAD + |Names(call)| + |FirstSql(call)| + |FirstParams(call)| <= MAIN_BUCKET
  {
    hide Names, UserString.Text;
    NamesShort(call);
  }

  class Probe {
    var eventSeq: nat
    var seen: nat
    var ringFullDropped: nat

    constructor (startSeq: nat)
      ensures eventSeq == startSeq && seen == 0 && ringFullDropped == 0
    {
      eventSeq, seen, ringFullDropped := startSeq, 0, 0;
    }

    /** An atomic increment, after `others` ones of other CPUs. */
    method NextEventSeq(others: nat) returns (s: nat)
      modifies this`eventSeq
      ensures s == eventSeq == old(eventSeq) + others + 1
    {
      eventSeq := eventSeq + others;
      eventSeq := eventSeq + 1;
      s := eventSeq;
    }

    method FragmentNumbers(sqlLen: nat, paramsLen: nat, others: Others) returns (sqlSeq: nat, paramsSeq: nat)
      modifies this`eventSeq
      ensures sqlSeq == if sqlLen > MAIN_SQL_MAX then old(eventSeq) + others.sql + 1 else 0
      ensures paramsSeq == if paramsLen <= MAIN_PARAMS_MAX then 0
                           else (if sqlLen > MAIN_SQL_MAX then sqlSeq else old(eventSeq)) + others.params + 1
      ensures eventSeq == if paramsLen > MAIN_PARAMS_MAX then paramsSeq
                          else if sqlLen > MAIN_SQL_MAX then sqlSeq else old(eventSeq)
    {
      sqlSeq, paramsSeq := 0, 0;
      if sqlLen > MAIN_SQL_MAX {
        sqlSeq := NextEventSeq(others.sql);
        if paramsLen > MAIN_PARAMS_MAX {
          paramsSeq := NextEventSeq(others.params);
        }
      } else if paramsLen > MAIN_PARAMS_MAX {
        paramsSeq := NextEventSeq(others.params);
      }
    }

    /** The packing part of the probe, on a bucket whose memory is arbitrary. */
    method PackMain(e: array<byte>, call: AuditCall, others: Others) returns (mainSeq: nat, sqlSeq: nat, paramsSeq: nat)
      requires call.Readable() && e.Length == MAIN_BUCKET
               && eventSeq + others.main + others.sql + others.params + 3 < U64
      modifies e, this`eventSeq
      ensures Numbers(mainSeq, sqlSeq, paramsSeq) == NumbersFrom(old(eventSeq), call, others)
      ensures eventSeq == if LongParams(call) then paramsSeq else if LongSql(call) then sqlSeq else mainSeq
      ensures MainImage(e[..], call, mainSeq, NextOf(call, sqlSeq, paramsSeq))
    {
      hide Put, Splice, Stamped, Sealed, PackedPayload, Names, Cut, MainImage, UserString.Text, FirstSql, FirstParams;
      ghost var bucket := e[..];
      PayloadFits(call);
      var sqlLen, paramsLen := |call.sql.Text()|, |call.params.Text()|;
      ReadInto(e, OB_RAW, call.raw);
      mainSeq := NextEventSeq(others.main);
      var payloadLen := StampAndPack(e, call, mainSeq);
      sqlSeq, paramsSeq := FragmentNumbers(sqlLen, paramsLen, others);
      var nextSeq := if sqlSeq != 0 then sqlSeq else paramsSeq;
      SealHeader(e, RecordFlags(sqlLen, paramsLen), nextSeq, PAYLOAD + payloadLen);
      assert e[..] == Built(bucket, call, mainSeq, nextSeq);
      BuiltIsImage(bucket, call, mainSeq, nextSeq);
    }

    method StampAndPack(e: array<byte>, call: AuditCall, mainSeq: nat) returns (payloadLen: nat)
      requires call.Readable() && e.Length == MAIN_BUCKET
      modifies e
      ensures payloadLen == |Names(call)| + |FirstSql(call)| + |FirstParams(call)|
      ensures e[..]
              == PackedPayload(Stamped(old(e[..]), |call.sql.Text()|, |call.params.Text()|, mainSeq), call)
    {
      hide Put, Splice, Stamped, PackedPayload, Names, Cut;
      StampHeader(e, |call.sql.Text()|, |call.params.Text()|, mainSeq);
      payloadLen := PackPayload(e, call);
    }

    method StampHeader(e: array<byte>, sqlLen: nat, paramsLen: nat, mainSeq: nat)
      requires e.Length == MAIN_BUCKET
      modifies e
      ensures e[..] == Stamped(old(e[..]), sqlLen, paramsLen, mainSeq)
    {
      hide Put;
      StoreField(e, RECORD_TYPE, 2, EVENT_RECORD);
      StoreField(e, RECORD_FLAGS, 2, 0);
      StoreField(e, EVENT_SEQ, 8, mainSeq);
      StoreField(e, PARENT_SEQ, 8, 0);
      StoreField(e, NEXT_FRAGMENT_SEQ, 8, 0);
      StoreField(e, QUERY_SQL_LEN, 8, sqlLen);
      StoreField(e, PARAMS_VALUE_LEN, 8, paramsLen);
      StoreField(e, FRAGMENT_FLAGS, 4, Flags(sqlLen, paramsLen));
      StoreField(e, NEXT_FRAGMENT_FIELD, 4, NextField(sqlLen, paramsLen));
    }

    method SealHeader(e: array<byte>, recordFlags: nat, nextSeq: nat, total: nat)
      requires e.Length == MAIN_BUCKET
      modifies e
      ensures e[..] == Sealed(old(e[..]), recordFlags, nextSeq, if total > MAIN_BUCKET then MAIN_BUCKET else total)
    {
      hide Put;
      StoreField(e, RECORD_FLAGS, 2, recordFlags);
      StoreField(e, NEXT_FRAGMENT_SEQ, 8, nextSeq);
      StoreField(e, TOTAL_SIZE, 4, if total > MAIN_BUCKET then MAIN_BUCKET else total);
    }

    /** One audited call. Inner statements and unreadable or empty ones leave no trace. Every other call
      * is counted as seen, and then either counted as dropped or put in the ring as one main record,
      * followed by those of its fragments that find room. */
    method HandleUprobe(hasRecord: bool, isInner: bool, room: bool, readOk: bool, call: AuditCall,
                        others: Others, sqlRoom: bool, paramsRoom: bool,
                          e: array<byte>) returns (out: seq<KernelRecord>)
      requires call.Readable() && e.Length == MAIN_BUCKET
               && eventSeq + others.main + others.sql + others.params + 3 < U64
      modifies this, e
      ensures !hasRecord || isInner ==> out == [] && unchanged(this)
      ensures hasRecord && !isInner && !room ==>
                out == [] && seen == old(seen) + 1 && ringFullDropped == old(ringFullDropped) + 1
                && eventSeq == old(eventSeq)
      ensures hasRecord && !isInner && room && (!readOk || call.sql.Text() == []) ==> out == [] && unchanged(this)
      ensures hasRecord && !isInner && room && readOk && call.sql.Text() != [] ==>
                && seen == old(seen) + 1 && ringFullDropped == old(ringFullDropped)
                && var q := NumbersFrom(old(eventSeq), call, others);
                   var fragments := Fragments(call, q.main, q.sql, q.params);
                && |out| > 0 && out[0].EventRecord?
                   && MainImage(out[0].mem, call, q.main, NextOf(call, q.sql, q.params))
                && out[1..] == Surviving(fragments, sqlRoom, paramsRoom)
    {
      hide MainImage, FragmentOf, Cut;
      if !hasRecord || isInner {
        return [];
      }
      if !room {
        seen, ringFullDropped := seen + 1, ringFullDropped + 1;
        return [];
      }
      if !readOk || call.sql.isNull || call.sql.len <= 0 {
        return [];
      }
      seen := seen + 1;
      var mainSeq, sqlSeq, paramsSeq := PackMain(e, call, others);
      var tail := EmitFragments(call, mainSeq, sqlSeq, paramsSeq, sqlRoom, paramsRoom);
      out := [EventRecord(e[..])] + tail;
    }

    method EmitFragments(call: AuditCall, mainSeq: nat, sqlSeq: nat, paramsSeq: nat, sqlRoom: bool, paramsRoom: bool)
      returns (out: seq<KernelRecord>)
      requires call.Readable()
      requires |call.sql.Text()| > MAIN_SQL_MAX ==> sqlSeq > 0
      requires |call.params.Text()| > MAIN_PARAMS_MAX <==> paramsSeq > 0
      ensures out == Surviving(Fragments(call, mainSeq, sqlSeq, paramsSeq), sqlRoom, paramsRoom)
    {
      hide FragmentOf, Cut;
      var sqlOut, paramsOut := [], [];
      if |call.sql.Text()| > MAIN_SQL_MAX {
        sqlOut := EmitFragment(QuerySql, call.sql, MAIN_SQL_MAX, mainSeq, sqlSeq, paramsSeq, sqlRoom);
        EmitCovers(QuerySql, call.sql, MAIN_SQL_MAX, mainSeq, sqlSeq, paramsSeq);
      }
      if |call.params.Text()| > MAIN_PARAMS_MAX {
        paramsOut := EmitFragment(ParamsValue, call.params, MAIN_PARAMS_MAX, mainSeq, paramsSeq, 0, paramsRoom);
        EmitCovers(ParamsValue, call.params, MAIN_PARAMS_MAX, mainSeq, paramsSeq, 0);
      }
      out := sqlOut + paramsOut;
      SurvivingFragments(call, mainSeq, sqlSeq, paramsSeq, sqlRoom, paramsRoom);
    }
  }

  lemma SurvivingFragments(call: AuditCall, mainSeq: nat, sqlSeq: nat, paramsSeq: nat, sqlRoom: bool, paramsRoom: bool)
    requires call.Readable()
    ensures var sql, params := call.sql.Text(), call.params.Text();
            var sqlOut := if |sql| > MAIN_SQL_MAX && sqlRoom then
                            [FragmentOf(QuerySql, sql, MAIN_SQL_MAX, mainSeq, sqlSeq,
                                        if |params| > MAIN_PARAMS_MAX then paramsSeq else 0)]
                          else [];
            var paramsOut := if |params| > MAIN_PARAMS_MAX && paramsRoom then
                               [FragmentOf(ParamsValue, params, MAIN_PARAMS_MAX, mainSeq, paramsSeq, 0)]
                             else [];
            Surviving(Fragments(call, mainSeq, sqlSeq, paramsSeq), sqlRoom, paramsRoom) == sqlOut + paramsOut
  {
    var sql, params := call.sql.Text(), call.params.Text();
    var fragments := Fragments(call, mainSeq, sqlSeq, paramsSeq);
    if |sql| > MAIN_SQL_MAX && |params| > MAIN_PARAMS_MAX {
      SurvivingOne(fragments[0], sqlRoom, paramsRoom);
      SurvivingOne(fragments[1], sqlRoom, paramsRoom);
      assert fragments[1..] == [fragments[1]];
    } else if |sql| > MAIN_SQL_MAX || |params| > MAIN_PARAMS_MAX {
      assert fragments == [fragments[0]];
      SurvivingOne(fragments[0], sqlRoom, paramsRoom);
    }
  }

  lemma SurvivingOne(f: KernelRecord, sqlRoom: bool, paramsRoom: bool)
    requires f.FragmentRecord?
    ensures Surviving([f], sqlRoom, paramsRoom) == if (if f.field == QuerySql then sqlRoom else paramsRoom) then [f]
                                                   else []
  {
    assert [f][1..] == [];
  }
}
