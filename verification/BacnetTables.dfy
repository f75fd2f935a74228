/**
 The three request tables of `BacnetContext` and what each lock region of the driver does to them.
 Every region is a function on table values; the state machine and the class both use these functions.
 */
module BacnetTables {
  import opened Prelude

  /** `proto_status_t`. */
  datatype Status = Success | ErrorInit | ErrorConnect | ErrorRead | ErrorWrite
                  | ErrorUnsupported | ErrorParam | NoData | ErrorMemory | Timeout

  datatype ObjectKey = ObjectKey(deviceInstance: nat, objectType: nat, objectInstance: nat, propertyId: nat)

  /** A decoded BACnet application value; floating point values are carried as their bit patterns. */
  datatype AppValue =
    | AppNull
    | AppBoolean(b: bool)
    | AppUnsigned(u: nat)
    | AppSigned(i: int)
    | AppReal(bits: nat)
    | AppDouble(bits: nat)
    | AppEnumerated(u: nat)
    | AppBitString(flags: seq<bool>)
    | AppOctetString(octets: seq<Byte>)
    | AppCharacterString(chars: seq<Byte>)
    | AppOther(tag: nat)

  /** `bacnet_data_value_t`; a string whose allocation failed has a type but no data. */
  datatype DataValue =
    | DataNull
    | DataBoolean(b: bool)
    | DataUnsigned(u: nat)
    | DataSigned(i: int)
    | DataReal(bits: nat)
    | DataDouble(bits: nat)
    | DataEnum(u: nat)
    | DataOctetString(octets: seq<Byte>)
    | DataCharacterString(chars: seq<Byte>)
    | DataDangling

  datatype ObjectState = ObjectState(
    cachedValue: DataValue, status: Status, active: Byte, timestamp: int, hasCache: bool)

  datatype WriteItem = WriteItem(
    key: ObjectKey, invokeId: Byte, value: DataValue, priority: Byte, arrayIndex: nat,
    timestamp: int, timeoutMs: nat)

  datatype Tables = Tables(
    states: map<ObjectKey, ObjectState>, ids: map<Byte, ObjectKey>, writes: map<Byte, WriteItem>)

  const EMPTY_TABLES := Tables(map[], map[], map[])

  /** The value-initialised entry that `object_states[key]` creates. */
  const FRESH_STATE := ObjectState(DataNull, Success, 0, 0, false)

  /** Milliseconds between two instants given in nanoseconds, as `duration_cast` computes them. */
  function ElapsedMs(now: int, since: int): int {
    TruncDiv(now - since, 1_000_000)
  }

  /** The low eight bits of a bit string of at most 32 bits; 0 for a longer one. */
  function BitFlags(flags: seq<bool>): nat {
    if |flags| <= 32 then BitSum(flags, if |flags| < 8 then |flags| else 8) else 0
  }

  function BitSum(flags: seq<bool>, n: nat): nat
    requires n <= |flags|
  {
    if n == 0 then 0 else BitSum(flags, n - 1) + (if flags[n - 1] then Pow2(n - 1) else 0)
  }

  /** The data value an application value becomes, or None for a tag the driver does not support. */
  function DataOf(v: AppValue): Option<DataValue> {
    match v
    case AppNull => Some(DataNull)
    case AppBoolean(b) => Some(DataBoolean(b))
    case AppUnsigned(u) => Some(DataUnsigned(u % TWO_32))
    case AppSigned(i) => Some(DataSigned(ToInt32(i)))
    case AppReal(bits) => Some(DataReal(bits))
    case AppDouble(bits) => Some(DataDouble(bits))
    case AppEnumerated(u) => Some(DataEnum(u % TWO_32))
    case AppBitString(flags) => Some(DataUnsigned(BitFlags(flags)))
    case AppOctetString(octets) => Some(DataOctetString(octets))
    case AppCharacterString(chars) => Some(DataCharacterString(chars))
    case AppOther(_) => None
  }

  predicate NeedsAllocation(v: AppValue) {
    v.AppOctetString? || v.AppCharacterString?
  }

  /** `store_application_value` into a slot that holds `slot`: the status and the slot afterwards. */
  function StoreValue(slot: DataValue, v: AppValue, allocOk: bool): (Status, DataValue) {
    if NeedsAllocation(v) && !allocOk then (ErrorMemory, DataDangling)
    else match DataOf(v)
      case Some(d) => (Success, d)
      case None => (ErrorUnsupported, slot)
  }

  /** What `plc_proto_read` does once it holds `object_states_mutex`. */
  datatype Decision = Hit(value: DataValue) | Pending(stale: Option<DataValue>) | Send

  function Decide(states: map<ObjectKey, ObjectState>, key: ObjectKey, now: int,
                  conservative: bool, cacheExpiryMs: nat): Decision
  {
    if key !in states then Send
    else
      var state := states[key];
      if conservative && state.hasCache && ElapsedMs(now, state.timestamp) < cacheExpiryMs
      then Hit(state.cachedValue)
      else if state.active != 0
      then Pending(if state.hasCache then Some(state.cachedValue) else None)
      else Send
  }

  /** A read request: the object, and whether the caller gave a buffer for the value. */
  datatype ReadRequest = ReadRequest(key: ObjectKey, hasBuffer: bool)

  /** What the rest of the stack answers when a request is sent; `issued` is 0 when sending fails. */
  datatype Link = Link(connected: bool, inRange: bool, bound: bool, issued: Byte)

  /** The failure of `execute_read_property` or `execute_write_property` before an id is known to be issued. */
  function LinkError(link: Link, sendError: Status): Option<Status> {
    if !link.connected then Some(ErrorConnect)
    else if !link.inRange then Some(ErrorParam)
    else if !link.bound then Some(ErrorConnect)
    else if link.issued == 0 then Some(sendError)
    else None
  }

  function SendError(req: ReadRequest, link: Link): Option<Status> {
    if !req.hasBuffer then Some(ErrorParam) else LinkError(link, ErrorRead)
  }

  /** The read sends a request. */
  predicate Sends(states: map<ObjectKey, ObjectState>, req: ReadRequest, link: Link, now: int,
                  conservative: bool, cacheExpiryMs: nat)
  {
    Decide(states, req.key, now, conservative, cacheExpiryMs).Send? && SendError(req, link).None?
  }

  /** The return code of `plc_proto_read` and what it puts into the caller's buffer. */
  function ReadOutcome(states: map<ObjectKey, ObjectState>, req: ReadRequest, link: Link, now: int,
                       conservative: bool, cacheExpiryMs: nat): (Status, Option<DataValue>)
  {
    match Decide(states, req.key, now, conservative, cacheExpiryMs)
    case Hit(v) => (Success, if req.hasBuffer then Some(v) else None)
    case Pending(stale) => (NoData, if req.hasBuffer then stale else None)
    case Send =>
      match SendError(req, link)
      case Some(error) => (error, None)
      case None =>
        if req.key in states && states[req.key].hasCache then (Success, Some(states[req.key].cachedValue))
        else (NoData, None)
  }

  /** No request of `key` is recorded as under way. */
  predicate Idle(states: map<ObjectKey, ObjectState>, key: ObjectKey) {
    key in states ==> states[key].active == 0
  }

  /** A request of `key` is recorded as under way. */
  predicate Busy(states: map<ObjectKey, ObjectState>, key: ObjectKey) {
    key in states && states[key].active != 0
  }

  function MarkSent(states: map<ObjectKey, ObjectState>, key: ObjectKey, id: Byte): map<ObjectKey, ObjectState> {
    var state := if key in states then states[key] else FRESH_STATE;
    states[key := state.(active := id, status := NoData)]
  }

  function StoreAck(states: map<ObjectKey, ObjectState>, key: ObjectKey, v: AppValue, allocOk: bool, now: int)
    : map<ObjectKey, ObjectState>
  {
    if key !in states then states
    else
      var (status, value) := StoreValue(states[key].cachedValue, v, allocOk);
      if status == Success
      then states[key := ObjectState(value, Success, 0, now, true)]
      else states[key := states[key].(cachedValue := value, status := status, active := 0)]
  }

  function FailRead(states: map<ObjectKey, ObjectState>, key: ObjectKey, status: Status): map<ObjectKey, ObjectState> {
    if key !in states then states
    else states[key := states[key].(status := status, active := 0)]
  }

  /** The staleness threshold: twice the read timeout in 32-bit arithmetic, or 12 s if that is 0. */
  function Threshold(readTimeoutMs: nat): nat {
    var t := (readTimeoutMs * 2) % TWO_32;
    if t == 0 then 12000 else t
  }

  /** The request of `key` is mapped and older than the threshold. */
  predicate StaleKey(t: Tables, now: int, threshold: nat, key: ObjectKey) {
    && key in t.states
    && t.states[key].active in t.ids
    && t.ids[t.states[key].active] == key
    && ElapsedMs(now, t.states[key].timestamp) > threshold
  }

  function StaleIds(t: Tables, now: int, threshold: nat): set<Byte> {
    set i | i in t.ids && t.ids[i] in t.states && t.states[t.ids[i]].active == i
            && ElapsedMs(now, t.states[t.ids[i]].timestamp) > threshold
  }

  function TimedOut(state: ObjectState): ObjectState {
    state.(active := 0, status := Timeout)
  }

  function CleanReads(t: Tables, now: int, threshold: nat): Tables {
    t.(states := map k | k in t.states :: if StaleKey(t, now, threshold, k) then TimedOut(t.states[k]) else t.states[k],
       ids := t.ids - StaleIds(t, now, threshold))
  }

  predicate ExpiredWrite(item: WriteItem, now: int) {
    ElapsedMs(now, item.timestamp) > item.timeoutMs
  }

  function ExpiredIds(writes: map<Byte, WriteItem>, now: int): set<Byte> {
    set i | i in writes && ExpiredWrite(writes[i], now)
  }

  function CleanWrites(writes: map<Byte, WriteItem>, now: int): map<Byte, WriteItem> {
    writes - ExpiredIds(writes, now)
  }
}
