/** Layout of the audit event record, perf fields off: 345 bytes of header, 1728 raw bytes, payload. */
module AuditRecord {
  import opened Bytes

  // Byte offsets in `struct event`.
  const TOTAL_SIZE: nat := 0
  const RECORD_TYPE: nat := 4
  const RECORD_FLAGS: nat := 6
  const EVENT_SEQ: nat := 8
  const PARENT_SEQ: nat := 16
  const NEXT_FRAGMENT_SEQ: nat := 24
  const QUERY_SQL_LEN: nat := 136
  const PARAMS_VALUE_LEN: nat := 144
  const USER_NAME_LEN: nat := 184
  const PROXY_USER_NAME_LEN: nat := 188
  const TENANT_NAME_LEN: nat := 192
  const DB_NAME_LEN: nat := 196
  const SQL_PAYLOAD_LEN: nat := 200
  const PARAMS_PAYLOAD_LEN: nat := 204
  const FRAGMENT_FLAGS: nat := 232
  const NEXT_FRAGMENT_FIELD: nat := 236
  const SERVER_IP: nat := 288
  const OB_RAW: nat := 345
  const RAW_SIZE: nat := 1728
  const PAYLOAD: nat := 2073

  const MAX_IP_LEN: nat := 24
  const MAX_NAME_LEN: nat := 64
  const MAX_DB_NAME_LEN: nat := 128
  const CAPTURE_MAX: nat := 65536
  /** sizeof(struct event) on the agent and collector: payload of 131392 bytes, padded to 8. */
  const SIZEOF_EVENT: nat := 133472
  const AUDIT_RECORD_MAX: nat := SIZEOF_EVENT + CAPTURE_MAX + CAPTURE_MAX

  const EVENT_RECORD: nat := 1
  const LOGICAL_COMPLETE: nat := 1
  const PHYSICAL_COMPLETE: nat := 2
  const LAST_FRAGMENT: nat := 8

  const SQL_TRUNCATED: nat := 1
  const PARAMS_TRUNCATED: nat := 2
  const SQL_FRAGMENTED: nat := 4
  const PARAMS_FRAGMENTED: nat := 8

  /** True if bit `bit` (a power of two) is set in `flags`. */
  predicate HasFlag(flags: nat, bit: nat)
    requires bit > 0
  {
    flags / bit % 2 == 1
  }

  function WithFlag(flags: nat, bit: nat): (r: nat)
    requires bit > 0
    ensures HasFlag(flags, bit) ==> r == flags
  {
    if HasFlag(flags, bit) then flags else flags + bit
  }

  /** Bytes of an event that reach at least to its payload. */
  predicate HasHeader(e: bytes)
  {
    |e| >= PAYLOAD
  }

  function NamesLen(e: bytes): nat
    requires HasHeader(e)
  {
    Field(e, USER_NAME_LEN, 4) + Field(e, PROXY_USER_NAME_LEN, 4) + Field(e, TENANT_NAME_LEN, 4)
      + Field(e, DB_NAME_LEN, 4)
  }

  /** Sum of the six payload lengths, not yet cut to 32 bits. */
  function PayloadSum(e: bytes): nat
    requires HasHeader(e)
  {
    NamesLen(e) + Field(e, SQL_PAYLOAD_LEN, 4) + Field(e, PARAMS_PAYLOAD_LEN, 4)
  }

  /** Field checks that the agent's and the collector's validity tests share, in 32-bit arithmetic. */
  predicate SizesAgree(e: bytes, total: nat)
    requires HasHeader(e)
  {
    Field(e, RECORD_TYPE, 2) == EVENT_RECORD && (PAYLOAD + PayloadSum(e)) % U32 == total
  }

  predicate CompactSizeValid(e: bytes)
    requires HasHeader(e)
  {
    var total := Field(e, TOTAL_SIZE, 4);
    PAYLOAD <= total <= SIZEOF_EVENT && SizesAgree(e, total)
  }

  /** A complete record as the collector accepts it: it fills exactly the size it declares. */
  predicate ValidRecord(e: bytes)
  {
    && HasHeader(e)
    && Field(e, TOTAL_SIZE, 4) == |e| <= AUDIT_RECORD_MAX
    && SizesAgree(e, |e|)
  }

  /** The payload of a record ends where its lengths say. */
  predicate Readable(e: bytes)
  {
    HasHeader(e) && PAYLOAD + PayloadSum(e) <= |e|
  }

  // What the readers find in a record: each text begins where the one before it ends.

  function UserNameOf(e: bytes): bytes
    requires Readable(e)
  {
    e[PAYLOAD..][..Field(e, USER_NAME_LEN, 4)]
  }

  function ProxyUserNameOf(e: bytes): bytes
    requires Readable(e)
  {
    e[PAYLOAD + Field(e, USER_NAME_LEN, 4)..][..Field(e, PROXY_USER_NAME_LEN, 4)]
  }

  function TenantNameOf(e: bytes): bytes
    requires Readable(e)
  {
    e[PAYLOAD + Field(e, USER_NAME_LEN, 4) + Field(e, PROXY_USER_NAME_LEN, 4)..][..Field(e, TENANT_NAME_LEN, 4)]
  }

  function DbNameOf(e: bytes): bytes
    requires Readable(e)
  {
    var behind := Field(e, USER_NAME_LEN, 4) + Field(e, PROXY_USER_NAME_LEN, 4) + Field(e, TENANT_NAME_LEN, 4);
    e[PAYLOAD + behind..][..Field(e, DB_NAME_LEN, 4)]
  }

  function QuerySqlOf(e: bytes): bytes
    requires Readable(e)
  {
    e[PAYLOAD + NamesLen(e)..][..Field(e, SQL_PAYLOAD_LEN, 4)]
  }

  function ParamsOf(e: bytes): bytes
    requires Readable(e)
  {
    e[PAYLOAD + NamesLen(e) + Field(e, SQL_PAYLOAD_LEN, 4)..][..Field(e, PARAMS_PAYLOAD_LEN, 4)]
  }

  /** Six texts in the payload, each under its own length field, are what the readers find. */
  lemma ReadsBack(e: bytes, user: bytes, proxy: bytes, tenant: bytes, db: bytes, sql: bytes, params: bytes)
    requires HasHeader(e)
    requires Field(e, USER_NAME_LEN, 4) == |user| && Field(e, PROXY_USER_NAME_LEN, 4) == |proxy|
    requires Field(e, TENANT_NAME_LEN, 4) == |tenant| && Field(e, DB_NAME_LEN, 4) == |db|
    requires Field(e, SQL_PAYLOAD_LEN, 4) == |sql| && Field(e, PARAMS_PAYLOAD_LEN, 4) == |params|
    requires user + proxy + tenant + db + sql + params <= e[PAYLOAD..]
    ensures Readable(e) && UserNameOf(e) == user && ProxyUserNameOf(e) == proxy && TenantNameOf(e) == tenant
    ensures DbNameOf(e) == db && QuerySqlOf(e) == sql && ParamsOf(e) == params
  {
    hide Field;
    var p := user + proxy + tenant + db + sql + params;
    TextAt(e, p, 0, user, [], proxy + tenant + db + sql + params);
    TextAt(e, p, |user|, proxy, user, tenant + db + sql + params);
    TextAt(e, p, |user| + |proxy|, tenant, user + proxy, db + sql + params);
    TextAt(e, p, |user| + |proxy| + |tenant|, db, user + proxy + tenant, sql + params);
    TextAt(e, p, |user| + |proxy| + |tenant| + |db|, sql, user + proxy + tenant + db, params);
    TextAt(e, p, |user| + |proxy| + |tenant| + |db| + |sql|, params, user + proxy + tenant + db + sql, []);
  }

  lemma TextAt(e: bytes, payload: bytes, at: nat, text: bytes, before: bytes, after: bytes)
    requires HasHeader(e) && payload <= e[PAYLOAD..] && payload == before + text + after && at == |before|
    ensures PAYLOAD + at + |text| <= |e| && e[PAYLOAD + at..][..|text|] == text
  {
    var tail := e[PAYLOAD..];
    forall i | 0 <= i < |text|
      ensures e[PAYLOAD + at + i] == text[i]
    {
      assert tail[at + i] == payload[at + i] == text[i];
    }
  }

  const MAIN_BUCKET: nat := 4096
  const MAIN_SQL_MAX: nat := 1023
  const MAIN_PARAMS_MAX: nat := 255
  const FRAGMENT_HEADER: nat := 44
  const FRAGMENT_PAYLOAD_MAX: nat := 65535

  datatype FragmentField = NoField | QuerySql | ParamsValue

  /** What the probe puts in the kernel ring: the memory of an event bucket, or a fragment. */
  datatype KernelRecord =
    | EventRecord(mem: bytes)
    | FragmentRecord(totalSize: nat, recordFlags: nat, eventSeq: nat, parentSeq: nat, nextSeq: nat,
                     field: FragmentField, fragmentOffset: nat, payloadLen: nat, payload: bytes)

  function Min(a: nat, b: nat): nat
  {
    if a <= b then a else b
  }
}
