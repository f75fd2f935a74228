/**
 `BacnetContext`: the tables as fields, the operations of the driver as methods. Each method runs without
 interference here; its contract says which steps of the state machine it takes, in order.
 */
module BacnetDriver {
  import opened Prelude
  import opened BacnetTables
  import opened BacnetMachine
  import opened BacnetServed

  datatype ErrorCode = UnknownProperty | UnknownObject | UnsupportedObjectType | OtherError(code: nat)

  /** A write request after its value has been converted, or not. */
  datatype WriteRequest = WriteRequest(
    key: ObjectKey, value: DataValue, convertible: bool, arrayIndex: int, priority: Byte, timeoutMs: nat)

  const WRITE_TIMEOUT_MS: nat := 6000
  const MAX_PRIORITY: Byte := 16
  const ARRAY_ALL: nat := 0xFFFF_FFFF

  function ErrorStatus(code: ErrorCode): Status {
    if code.OtherError? then ErrorRead else ErrorUnsupported
  }

  class BacnetContext {
    var objectStates: map<ObjectKey, ObjectState>
    var invokeIdToKey: map<Byte, ObjectKey>
    var writePendingMap: map<Byte, WriteItem>
    var conservative: bool
    var cacheExpiryMs: nat
    var readTimeoutMs: nat
    var writeTimeoutMs: nat
    var defaultPriority: Byte

    ghost function Tables(): Tables
      reads this
    {
      BacnetTables.Tables.Tables(objectStates, invokeIdToKey, writePendingMap)
    }

    /** Id 0 means "no request" and is never a key of the reverse map. */
    ghost predicate Valid()
      reads this
    {
      0 !in invokeIdToKey
    }

    constructor (conservative: bool, cacheExpiryMs: nat, readTimeoutMs: nat, writeTimeoutMs: nat, defaultPriority: Byte)
      ensures Valid() && AtRest(Tables()) == INIT
    {
      objectStates, invokeIdToKey, writePendingMap := map[], map[], map[];
      this.conservative, this.cacheExpiryMs := conservative, cacheExpiryMs;
      this.readTimeoutMs, this.writeTimeoutMs := readTimeoutMs, writeTimeoutMs;
      this.defaultPriority := defaultPriority;
    }

    method PlcProtoRead(req: ReadRequest, link: Link, now: int) returns (rc: Status, out: Option<DataValue>)
      requires Valid()
      modifies this`objectStates, this`invokeIdToKey
      ensures Valid()
      ensures (rc, out) == ReadOutcome(old(objectStates), req, link, now, conservative, cacheExpiryMs)
      ensures if Sends(old(objectStates), req, link, now, conservative, cacheExpiryMs) then AtRest(Tables())
                   == Next(Next(Next(AtRest(old(Tables())), ReadSend(req.key, link.issued)), ReadMap), ReadCommit)
              else Tables() == old(Tables())
    {
      var known := req.key in objectStates;
      if conservative && known {
        var state := objectStates[req.key];
        if state.hasCache && ElapsedMs(now, state.timestamp) < cacheExpiryMs {
          return Success, if req.hasBuffer then Some(state.cachedValue) else None;
        }
      }
      if known && objectStates[req.key].active != 0 {
        var state := objectStates[req.key];
        return NoData, if state.hasCache && req.hasBuffer then Some(state.cachedValue) else None;
      }
      var id;
      rc, id := ExecuteReadProperty(req, link);
      out := None;
      if rc == Success {
        var state := if known then objectStates[req.key] else FRESH_STATE;
        objectStates := objectStates[req.key := state.(active := id, status := NoData)];
        if state.hasCache && req.hasBuffer {
          out := Some(state.cachedValue);
        } else {
          rc := NoData;
        }
      }
    }

    method ExecuteReadProperty(req: ReadRequest, link: Link) returns (rc: Status, id: Byte)
      modifies this`invokeIdToKey
      ensures match SendError(req, link)
              case Some(error) => rc == error && rc != Success && invokeIdToKey == old(invokeIdToKey)
              case None => rc == Success && id == link.issued && invokeIdToKey == old(invokeIdToKey)[id := req.key]
    {
      id := 0;
      if !req.hasBuffer {
        return ErrorParam, id;
      }
      if !link.connected {
        return ErrorConnect, id;
      }
      if !link.inRange {
        return ErrorParam, id;
      }
      if !link.bound {
        return ErrorConnect, id;
      }
      if link.issued == 0 {
        return ErrorRead, id;
      }
      id := link.issued;
      invokeIdToKey := invokeIdToKey[id := req.key];
      rc := Success;
    }

    /** The region that handlers share: look the id up in the reverse map and erase it. */
    method TakeMapping(id: Byte) returns (key: Option<ObjectKey>)
      modifies this`invokeIdToKey
      ensures invokeIdToKey == old(invokeIdToKey) - {id}
      ensures key == if id in old(invokeIdToKey) then Some(old(invokeIdToKey)[id]) else None
    {
      key := None;
      if id in invokeIdToKey {
        key := Some(invokeIdToKey[id]);
        invokeIdToKey := invokeIdToKey - {id};
      }
    }

    /** `decoded` is None when the application data of the ACK does not decode. */
    method HandleReadPropertyAck(id: Byte, headerOk: bool, decoded: Option<AppValue>, allocOk: bool, now: int)
      requires Valid()
      modifies this`objectStates, this`invokeIdToKey
      ensures Valid()
      ensures if headerOk && id in old(invokeIdToKey) then
                var t := Token(AckHandler, id, old(invokeIdToKey)[id]);
                var taken := Next(AtRest(old(Tables())), Take(AckHandler, id));
                AtRest(Tables())
                == Next(taken, if decoded.None? then DropAck(t) else AckStore(t, decoded.value, allocOk, now))
              else Tables() == old(Tables())
    {
      if !headerOk {
        return;
      }
      var key := TakeMapping(id);
      if key.None? || decoded.None? {
        return;
      }
      if key.value in objectStates {
        var state := objectStates[key.value];
        var (status, value) := StoreValue(state.cachedValue, decoded.value, allocOk);
        state := state.(cachedValue := value);
        if status == Success {
          state := state.(hasCache := true, status := Success, timestamp := now, active := 0);
        } else {
          state := state.(status := status, active := 0);
        }
        objectStates := objectStates[key.value := state];
      }
    }

    method HandleErrorResponse(id: Byte, code: ErrorCode)
      requires Valid()
      modifies this`objectStates, this`invokeIdToKey, this`writePendingMap
      ensures Valid()
      ensures AtRest(Tables()) ==
              if id in old(invokeIdToKey) then
                var t := Token(ErrorHandler, id, old(invokeIdToKey)[id]);
                Next(Next(AtRest(old(Tables())), Take(ErrorHandler, id)), ReadError(t, ErrorStatus(code)))
              else Next(AtRest(old(Tables())), WriteError(id))
    {
      var key := TakeMapping(id);
      if key.Some? {
        if key.value in objectStates {
          var state := objectStates[key.value];
          if code == UnknownProperty || code == UnknownObject || code == UnsupportedObjectType {
            state := state.(status := ErrorUnsupported);
          } else {
            state := state.(status := ErrorRead);
          }
          objectStates := objectStates[key.value := state.(active := 0)];
        }
      } else if id in writePendingMap {
        writePendingMap := writePendingMap - {id};
      }
    }

    /** `handle_abort_response`; `handle_reject_response` does the same. */
    method HandleAbortResponse(id: Byte)
      requires Valid()
      modifies this`objectStates, this`invokeIdToKey
      ensures Valid()
      ensures if id in old(invokeIdToKey) then
                var t := Token(AbortHandler, id, old(invokeIdToKey)[id]);
                AtRest(Tables())
                == Next(Next(AtRest(old(Tables())), Take(AbortHandler, id)), BacnetMachine.ReadError(t, ErrorRead))
              else Tables() == old(Tables())
    {
      var key := TakeMapping(id);
      if key.Some? && key.value in objectStates {
        objectStates := objectStates[key.value := objectStates[key.value].(active := 0, status := ErrorRead)];
      }
    }

    method HandleWritePropertyAck(id: Byte)
      requires Valid()
      modifies this`writePendingMap
      ensures AtRest(Tables()) == Next(AtRest(old(Tables())), WriteAck(id))
    {
      if id in writePendingMap {
        writePendingMap := writePendingMap - {id};
      }
    }

    method ExecuteWriteProperty(req: WriteRequest, link: Link, now: int) returns (rc: Status, id: Byte)
      requires Valid()
      modifies this`writePendingMap
      ensures Valid()
      ensures match WriteFailure(req, link)
              case Some(error) => rc == error && rc != Success && Tables() == old(Tables())
              case None =>
                && rc == Success && id == link.issued
                && var item := PendingItem(req, link, now, defaultPriority, writeTimeoutMs);
                   AtRest(Tables()) == Next(Next(AtRest(old(Tables())), WriteSend(item)), WriteMap)
    {
      id := 0;
      if !link.connected {
        return ErrorConnect, id;
      }
      if !link.inRange {
        return ErrorParam, id;
      }
      if !link.bound {
        return ErrorConnect, id;
      }
      if !req.convertible {
        return ErrorParam, id;
      }
      var priority := if req.priority == 0 then defaultPriority else req.priority;
      if priority == 0 {
        priority := MAX_PRIORITY;
      }
      var arrayIndex := if req.arrayIndex < 0 then ARRAY_ALL else req.arrayIndex;
      if link.issued == 0 {
        return Status.ErrorWrite, id;
      }
      id := link.issued;
      var timeoutMs := if req.timeoutMs != 0 then req.timeoutMs else writeTimeoutMs;
      if timeoutMs == 0 {
        timeoutMs := WRITE_TIMEOUT_MS;
      }
      var item := WriteItem(req.key, id, req.value, priority, arrayIndex, now, timeoutMs);
      writePendingMap := writePendingMap[id := item];
      rc := Success;
    }

    /** Two loops over hash tables that erase while they iterate; the order of iteration does not matter. */
    method CleanupStaleRequests(now: int)
      requires Valid()
      modifies this`objectStates, this`invokeIdToKey, this`writePendingMap
      ensures Valid()
      ensures AtRest(Tables())
              == Next(Next(AtRest(old(Tables())), SweepReads(now, Threshold(readTimeoutMs))), SweepWrites(now))
    {
      CleanupReads(now);
      CleanupWrites(now);
    }

    method CleanupReads(now: int)
      requires Valid()
      modifies this`objectStates, this`invokeIdToKey
      ensures Valid()
      ensures Tables() == CleanReads(old(Tables()), now, Threshold(readTimeoutMs))
    {
      ghost var before := Tables();
      ghost var stale := StaleIds(before, now, Threshold(readTimeoutMs));
      var todo := invokeIdToKey.Keys;
      while todo != {}
        invariant todo <= before.ids.Keys
        invariant invokeIdToKey == before.ids - (stale - todo)
        invariant writePendingMap == before.writes
        invariant objectStates.Keys == before.states.Keys
        invariant forall k :: k in objectStates ==>
          objectStates[k] == (if StaleKey(before, now, Threshold(readTimeoutMs), k) && before.states[k].active !in todo
                              then TimedOut(before.states[k]) else before.states[k])
        decreases todo
      {
        var id :| id in todo;
        ExpireRead(id, now);
        todo := todo - {id};
      }
    }

    /** One round of the loop. */
    method ExpireRead(id: Byte, now: int)
      requires id in invokeIdToKey
      modifies this`objectStates, this`invokeIdToKey
      ensures var key, states := old(invokeIdToKey)[id], old(objectStates);
              if key in states && states[key].active == id
                 && ElapsedMs(now, states[key].timestamp) > Threshold(readTimeoutMs)
              then objectStates == states[key := TimedOut(states[key])] && invokeIdToKey == old(invokeIdToKey) - {id}
              else objectStates == states && invokeIdToKey == old(invokeIdToKey)
    {
      var key := invokeIdToKey[id];
      if key in objectStates {
        var state := objectStates[key];
        var threshold := (readTimeoutMs * 2) % TWO_32;
        if threshold == 0 {
          threshold := 12000;
        }
        if ElapsedMs(now, state.timestamp) > threshold && state.active == id {
          objectStates := objectStates[key := state.(active := 0, status := Timeout)];
          invokeIdToKey := invokeIdToKey - {id};
        }
      }
    }

    method CleanupWrites(now: int)
      modifies this`writePendingMap
      ensures writePendingMap == CleanWrites(old(writePendingMap), now)
    {
      ghost var before := writePendingMap;
      var todo := writePendingMap.Keys;
      while todo != {}
        invariant todo <= before.Keys
        invariant writePendingMap == before - (ExpiredIds(before, now) - todo)
        decreases todo
      {
        var id :| id in todo;
        if ElapsedMs(now, writePendingMap[id].timestamp) > writePendingMap[id].timeoutMs {
          writePendingMap := writePendingMap - {id};
        }
        todo := todo - {id};
      }
    }

    method Reset()
      requires Valid()
      modifies this`objectStates, this`invokeIdToKey, this`writePendingMap
      ensures Valid()
      ensures AtRest(Tables()) == Next(Next(Next(AtRest(old(Tables())), ResetStates), ResetIds), ResetWrites)
    {
      objectStates := map[];
      invokeIdToKey := map[];
      writePendingMap := map[];
    }
  }

  function WriteFailure(req: WriteRequest, link: Link): Option<Status> {
    if link.connected && link.inRange && link.bound && !req.convertible then Some(ErrorParam)
    else LinkError(link, Status.ErrorWrite)
  }

  /** The pending entry: request values first, then the configured ones, then the built-in ones. */
  function PendingItem(req: WriteRequest, link: Link, now: int, defaultPriority: Byte, writeTimeoutMs: nat)
    : (item: WriteItem)
    ensures item.timeoutMs > 0 && item.priority > 0
  {
    WriteItem(req.key, link.issued, req.value,
              if req.priority != 0 then req.priority
              else if defaultPriority != 0 then defaultPriority else MAX_PRIORITY,
              if req.arrayIndex < 0 then ARRAY_ALL else req.arrayIndex,
              now,
              if req.timeoutMs != 0 then req.timeoutMs
              else if writeTimeoutMs != 0 then writeTimeoutMs else WRITE_TIMEOUT_MS)
  }

  /**
   An error for a mapped id: the mapping is gone, and its key is idle with its cache as before, and with the status for
   what is not supported if and only if the property or the object is unknown or the object's type is not supported.
   */
  lemma {:induction false} ErrorFailsTheRead(run: seq<Event>, id: Byte, code: ErrorCode)
    requires Valid(run) && Final(run) == AtRest(Final(run).t) && id in Final(run).t.ids
    ensures var t := Final(run).t;
            var key, token := t.ids[id], Token(ErrorHandler, id, t.ids[id]);
            && Enabled(Final(run), Take(ErrorHandler, id))
            && Enabled(Next(Final(run), Take(ErrorHandler, id)), ReadError(token, ErrorStatus(code)))
            && key in t.states
            && var status := match code
                             case OtherError(_) => ErrorRead
                             case UnknownProperty => ErrorUnsupported
                             case UnknownObject => ErrorUnsupported
                             case UnsupportedObjectType => ErrorUnsupported;
            Next(Next(Final(run), Take(ErrorHandler, id)), ReadError(token, ErrorStatus(code)))
            == AtRest(t.(ids := t.ids - {id}, states := t.states[key := t.states[key].(active := 0, status := status)]))
  {
    InvFinal(run);
    assert Holds(Final(run), id, Final(run).t.ids[id]);
  }

  /** The first of some numbers that is not 0. */
  function FirstGiven(numbers: seq<nat>): nat {
    if numbers == [] then 0 else if numbers[0] != 0 then numbers[0] else FirstGiven(numbers[1..])
  }

  /**
   A write is sent exactly when the device is connected, in range and bound, the value converts and the stack issues an
   id; the first of these that fails decides the status.
   */
  lemma {:induction false} WriteFails(req: WriteRequest, link: Link)
    ensures WriteFailure(req, link).None?
            <==> link.connected && link.inRange && link.bound && req.convertible && link.issued != 0
    ensures WriteFailure(req, link).Some? ==>
              WriteFailure(req, link).value
              == if !link.connected then ErrorConnect else if !link.inRange then ErrorParam
                 else if !link.bound then ErrorConnect else if !req.convertible then ErrorParam else Status.ErrorWrite
  {
  }

  /**
   A write sent at `now` is pending with the priority given first by the request, the configuration and the built-in 16;
   a sweep at `later` leaves it exactly while no full millisecond has passed beyond its timeout, which the request, the
   configuration or the built-in 6 s gives first. What else was pending under its id is overwritten.
   */
  lemma {:induction false} WriteLivesItsTimeout(
    t: BacnetTables.Tables, req: WriteRequest, link: Link, now: int, defaultPriority: Byte, writeTimeoutMs: nat,
    later: int)
    requires WriteFailure(req, link).None?
    ensures var item := PendingItem(req, link, now, defaultPriority, writeTimeoutMs);
            && Enabled(AtRest(t), WriteSend(item))
            && var sent := Next(Next(AtRest(t), WriteSend(item)), WriteMap);
            var swept := Next(sent, SweepWrites(later)).t.writes;
            && sent.t.writes == t.writes[link.issued := item]
            && item.key == req.key && item.value == req.value
            && item.arrayIndex == (if req.arrayIndex < 0 then 0xFFFF_FFFF else req.arrayIndex)
            && item.priority == FirstGiven([req.priority, defaultPriority, 16])
            && (link.issued in swept
                <==> later - now < (FirstGiven([req.timeoutMs, writeTimeoutMs, 6000]) + 1) * 1_000_000)
  {
    FirstOfThree(req.priority, defaultPriority, 16);
    FirstOfThree(req.timeoutMs, writeTimeoutMs, 6000);
    LimitInNanoseconds(later - now, FirstGiven([req.timeoutMs, writeTimeoutMs, 6000]));
  }

  lemma {:induction false} FirstOfThree(a: nat, b: nat, c: nat)
    ensures FirstGiven([a, b, c]) == if a != 0 then a else if b != 0 then b else c
  {
    assert [a, b, c][1..] == [b, c] && [b, c][1..] == [c] && [c][1..] == [];
    assert FirstGiven([c]) == c;
    assert FirstGiven([b, c]) == if b != 0 then b else c;
  }

  lemma {:induction false} LimitInNanoseconds(age: int, ms: nat)
    ensures TruncDiv(age, 1_000_000) <= ms <==> age < (ms + 1) * 1_000_000
  {
  }

  // ---------------------------------------------------------------------------------------------
  // What a cleanup pass means

  /** How old a request may be, in milliseconds: twice the read timeout in 32 bits, or 12 s. */
  function Limit(readTimeoutMs: nat): nat {
    if readTimeoutMs % 0x8000_0000 == 0 then 12000 else 2 * (readTimeoutMs % 0x8000_0000)
  }

  lemma {:induction false} ThresholdIsLimit(readTimeoutMs: nat)
    ensures Threshold(readTimeoutMs) == Limit(readTimeoutMs)
    ensures 0 < readTimeoutMs < 0x8000_0000 ==> Threshold(readTimeoutMs) == 2 * readTimeoutMs
  {
  }

  /** The state after a sweep of the reads with the threshold of a configuration and one of the writes. */
  function Cleaned(run: seq<Event>, now: int, readTimeoutMs: nat): BacnetTables.Tables
    requires Valid(run) && Enabled(Final(run), SweepReads(now, Threshold(readTimeoutMs)))
  {
    Next(Next(Final(run), SweepReads(now, Threshold(readTimeoutMs))), SweepWrites(now)).t
  }

  /** The mapping `id` is past the limit, counted from the last ACK stored for its key. */
  predicate PastLimit(run: seq<Event>, id: Byte, now: int, readTimeoutMs: nat)
    requires Valid(run)
  {
    var t := Final(run).t;
    id in t.ids && now - AnswerTime(run, t.ids[id]) >= (Limit(readTimeoutMs) + 1) * 1_000_000
  }

  /**
   After a cleanup pass in a reachable state: exactly the mappings are gone whose key has had no ACK stored for longer
   than the limit, and exactly the writes that are older than their own timeouts; the test of the active id never keeps
   a mapping. A key whose mapping went has active id 0, status TIMEOUT and its cache as before; all other states,
   mappings and writes are as before.
   */
  lemma {:induction false} CleanupIsAnExactFilter(run: seq<Event>, now: int, readTimeoutMs: nat)
    requires Valid(run) && Enabled(Final(run), SweepReads(now, Threshold(readTimeoutMs)))
    ensures var t, c := Final(run).t, Cleaned(run, now, readTimeoutMs);
            && c.states.Keys == t.states.Keys
            && (forall i :: i in t.ids ==> t.ids[i] in t.states)
            && (forall i :: i in c.ids <==> i in t.ids && !PastLimit(run, i, now, readTimeoutMs))
            && (forall i :: i in c.ids ==> c.ids[i] == t.ids[i])
            && (forall i :: i in t.ids && i !in c.ids ==>
                  c.states[t.ids[i]] == t.states[t.ids[i]].(active := 0, status := Timeout))
            && (forall k :: k in t.states && (forall i :: i in t.ids && t.ids[i] == k ==> i in c.ids) ==>
                  c.states[k] == t.states[k])
            && (forall i :: i in c.writes <==>
                  i in t.writes && now - t.writes[i].timestamp < (t.writes[i].timeoutMs + 1) * 1_000_000)
            && (forall i :: i in c.writes ==> c.writes[i] == t.writes[i])
  {
    InvFinal(run);
    var s := Final(run);
    ThresholdIsLimit(readTimeoutMs);
    forall i | i in s.t.ids
      ensures s.t.ids[i] in s.t.states && s.t.states[s.t.ids[i]].active == i
      ensures PastLimit(run, i, now, readTimeoutMs)
              <==> ElapsedMs(now, s.t.states[s.t.ids[i]].timestamp) > Limit(readTimeoutMs)
    {
      assert Holds(s, i, s.t.ids[i]);
      CacheHoldsLastAnswer(run, s.t.ids[i]);
      LimitInNanoseconds(now - AnswerTime(run, s.t.ids[i]), Limit(readTimeoutMs));
    }
    forall i | i in s.t.writes
      ensures ExpiredWrite(s.t.writes[i], now)
              <==> now - s.t.writes[i].timestamp >= (s.t.writes[i].timeoutMs + 1) * 1_000_000
    {
      LimitInNanoseconds(now - s.t.writes[i].timestamp, s.t.writes[i].timeoutMs);
    }
  }
}
