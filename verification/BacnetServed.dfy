/**
 What a caller of `plc_proto_read` gets, in terms of the ACKs of the run alone: when the cache answers, when a request
 is sent, and which value is delivered.
 */
module BacnetServed {
  import opened Prelude
  import opened BacnetTables
  import opened BacnetMachine
  import opened BacnetReads
  import opened BacnetValues

  /** An ACK whose value has been stored: the value, and the time of storing in nanoseconds. */
  datatype Answer = Answer(value: AppValue, time: int)

  /** The driver can store the value, when memory for a string is given or not. */
  predicate Storable(v: AppValue, allocOk: bool) {
    !v.AppOther? && (v.AppOctetString? || v.AppCharacterString? ==> allocOk)
  }

  /** The last ACK stored for the key since the last reset. */
  function LastAnswer(run: seq<Event>, key: ObjectKey): Option<Answer> {
    if run == [] || Last(run).ResetStates? then None
    else
      var e := Last(run);
      if e.AckStore? && e.token.key == key && Storable(e.value, e.allocOk) then Some(Answer(e.value, e.now))
      else LastAnswer(Front(run), key)
  }

  /** The time of the last ACK stored for the key, or the zero of the clock if there is none. */
  function AnswerTime(run: seq<Event>, key: ObjectKey): int {
    match LastAnswer(run, key)
    case Some(answer) => answer.time
    case None => 0
  }

  /** Since the last ACK stored for the key, memory failed for a string of a later one. */
  predicate Destroyed(run: seq<Event>, key: ObjectKey) {
    if run == [] || Last(run).ResetStates? then false
    else
      var e := Last(run);
      if !e.AckStore? || e.token.key != key || e.value.AppOther? then Destroyed(Front(run), key)
      else !Storable(e.value, e.allocOk) && LastAnswer(Front(run), key).Some?
  }

  /** What a caller with a buffer gets from the cache: the value of the last ACK stored, or a value without data. */
  ghost predicate FromCache(run: seq<Event>, key: ObjectKey, out: Option<DataValue>) {
    match LastAnswer(run, key)
    case None => out.None?
    case Some(answer) =>
      out.Some? && if Destroyed(run, key) then out.value.DataDangling? else Carries(out.value, answer.value)
  }

  // ---------------------------------------------------------------------------------------------
  // The cache of a key

  /** The entry of the key holds the answer of the run. */
  ghost predicate EntryHolds(
    states: map<ObjectKey, ObjectState>, key: ObjectKey, answer: Option<Answer>, destroyed: bool)
  {
    && (key in states && states[key].hasCache <==> answer.Some?)
    && (key in states && answer.None? ==> states[key].timestamp == 0)
    && (answer.Some? ==>
          && states[key].timestamp == answer.value.time
          && if destroyed then states[key].cachedValue.DataDangling?
             else Carries(states[key].cachedValue, answer.value.value))
  }

  lemma {:induction false} AckEntryHolds(
    states: map<ObjectKey, ObjectState>, key: ObjectKey, v: AppValue, allocOk: bool, now: int,
    answer: Option<Answer>, destroyed: bool)
    requires key in states && EntryHolds(states, key, answer, destroyed)
    ensures var states' := StoreAck(states, key, v, allocOk, now);
            if Storable(v, allocOk) then EntryHolds(states', key, Some(Answer(v, now)), false)
            else if v.AppOther? then EntryHolds(states', key, answer, destroyed)
            else EntryHolds(states', key, answer, answer.Some?)
  {
    StoredValueCarries(v);
  }

  lemma {:induction false} OtherStepsHold(s: State, e: Event, key: ObjectKey, answer: Option<Answer>, destroyed: bool)
    requires Enabled(s, e) && !e.ResetStates? && (e.AckStore? ==> e.token.key != key)
    requires EntryHolds(s.t.states, key, answer, destroyed)
    ensures EntryHolds(Next(s, e).t.states, key, answer, destroyed)
  {
  }

  /** In every run the entry of a key holds the last ACK stored for it, with its time. */
  lemma {:induction false} CacheHoldsLastAnswer(run: seq<Event>, key: ObjectKey)
    requires Valid(run)
    ensures EntryHolds(Final(run).t.states, key, LastAnswer(run, key), Destroyed(run, key))
  {
    if run != [] {
      CacheHoldsLastAnswer(Front(run), key);
      var s, e := Final(Front(run)), Last(run);
      var answer, destroyed := LastAnswer(Front(run), key), Destroyed(Front(run), key);
      if e.AckStore? && e.token.key == key {
        InvFinal(Front(run));
        assert Holds(s, e.token.id, e.token.key);
        AckEntryHolds(s.t.states, key, e.value, e.allocOk, e.now, answer, destroyed);
      } else if !e.ResetStates? {
        OtherStepsHold(s, e, key, answer, destroyed);
      }
    }
  }

  // ---------------------------------------------------------------------------------------------
  // The answer

  /** Under the conservative strategy an ACK stored less than the expiry ago answers without a request. */
  predicate Fresh(run: seq<Event>, key: ObjectKey, now: int, conservative: bool, cacheExpiryMs: nat) {
    var answer := LastAnswer(run, key);
    conservative && answer.Some? && now - answer.value.time < cacheExpiryMs * 1_000_000
  }

  /** A request of the key has been sent and not been resolved. */
  predicate InFlight(run: seq<Event>, key: ObjectKey)
    requires Valid(run)
  {
    |Flights(run, key)| % 2 == 1
  }

  predicate CanSend(req: ReadRequest, link: Link) {
    req.hasBuffer && link.connected && link.inRange && link.bound && link.issued != 0
  }

  lemma {:induction false} AgeInNanoseconds(age: int, ms: nat)
    requires age >= 0
    ensures TruncDiv(age, 1_000_000) < ms <==> age < ms * 1_000_000
  {
  }

  /**
   After every run, with the states' lock free, what `plc_proto_read` does follows from the ACKs and the sends alone. It
   answers from the cache if and only if an ACK is fresh. A request is sent if and only if none is fresh, none is in
   flight and sending works. A caller with a buffer gets the cached value in all cases but a failing send.
   */
  lemma {:induction false} ReadsAreServed(
    run: seq<Event>, req: ReadRequest, link: Link, now: int, conservative: bool, cacheExpiryMs: nat)
    requires Valid(run) && Final(run).reader.Outside?
    requires LastAnswer(run, req.key).Some? ==> LastAnswer(run, req.key).value.time <= now
    ensures var states := Final(run).t.states;
            var (rc, out) := ReadOutcome(states, req, link, now, conservative, cacheExpiryMs);
            var hit, inFlight := Fresh(run, req.key, now, conservative, cacheExpiryMs), InFlight(run, req.key);
            && (Sends(states, req, link, now, conservative, cacheExpiryMs)
                <==> !hit && !inFlight && CanSend(req, link))
            && (req.hasBuffer && (hit || inFlight || CanSend(req, link)) ==> FromCache(run, req.key, out))
            && (!req.hasBuffer ==> out.None?)
            && rc == (if hit then Success
                      else if inFlight then NoData
                      else if !req.hasBuffer then ErrorParam
                      else if !link.connected then ErrorConnect
                      else if !link.inRange then ErrorParam
                      else if !link.bound then ErrorConnect
                      else if link.issued == 0 then ErrorRead
                      else if LastAnswer(run, req.key).Some? then Success
                      else NoData)
            && (!hit && !inFlight && !CanSend(req, link) ==> out.None?)
  {
    var states, answer := Final(run).t.states, LastAnswer(run, req.key);
    CacheHoldsLastAnswer(run, req.key);
    SingleFlight(run, req.key);
    if answer.Some? {
      AgeInNanoseconds(now - answer.value.time, cacheExpiryMs);
      assert ElapsedMs(now, states[req.key].timestamp) == TruncDiv(now - answer.value.time, 1_000_000);
    }
    assert InFlight(run, req.key) <==> Busy(states, req.key);
  }

  /** A read succeeds without a request, whatever the link answers, exactly when an ACK is fresh. */
  lemma {:induction false} SuccessOnEveryLinkIffFresh(
    run: seq<Event>, req: ReadRequest, now: int, conservative: bool, cacheExpiryMs: nat)
    requires Valid(run) && Final(run).reader.Outside?
    requires LastAnswer(run, req.key).Some? ==> LastAnswer(run, req.key).value.time <= now
    ensures (forall link :: ReadOutcome(Final(run).t.states, req, link, now, conservative, cacheExpiryMs).0 == Success)
            <==> Fresh(run, req.key, now, conservative, cacheExpiryMs)
  {
    forall link
      ensures Fresh(run, req.key, now, conservative, cacheExpiryMs) ==>
                ReadOutcome(Final(run).t.states, req, link, now, conservative, cacheExpiryMs).0 == Success
    {
      ReadsAreServed(run, req, link, now, conservative, cacheExpiryMs);
    }
    ReadsAreServed(run, req, Link(false, true, true, 1), now, conservative, cacheExpiryMs);
  }

  // ---------------------------------------------------------------------------------------------
  // A destroyed cache

  /** Two runs have left the same in the cache of the key. */
  predicate SameCache(longer: seq<Event>, run: seq<Event>, key: ObjectKey) {
    LastAnswer(longer, key) == LastAnswer(run, key) && (Destroyed(longer, key) <==> Destroyed(run, key))
  }

  /** An ACK for a read that has been sent. */
  function Ack(key: ObjectKey, id: Byte, v: AppValue, allocOk: bool, now: int): seq<Event> {
    [Take(AckHandler, id), AckStore(Token(AckHandler, id, key), v, allocOk, now)]
  }

  lemma {:induction false} AnsweredRead(
    run: seq<Event>, key: ObjectKey, id: Byte, v: AppValue, allocOk: bool, now: int)
    requires Valid(run)
    requires var s := Final(run); s == AtRest(s.t) && id in s.t.ids && s.t.ids[id] == key
    ensures var t, run' := Final(run).t, run + Ack(key, id, v, allocOk, now);
            && Valid(run')
            && Final(run') == AtRest(t.(states := StoreAck(t.states, key, v, allocOk, now), ids := t.ids - {id}))
            && Last(run') == AckStore(Token(AckHandler, id, key), v, allocOk, now)
            && SameCache(Front(run'), run, key)
  {
    var taken, store := run + [Take(AckHandler, id)], AckStore(Token(AckHandler, id, key), v, allocOk, now);
    Extend(run, Take(AckHandler, id));
    Extend(taken, store);
    assert run + Ack(key, id, v, allocOk, now) == taken + [store];
    assert Front(taken) == run && Front(taken + [store]) == taken;
  }

  lemma {:induction false} OtherStepsKeepCache(run: seq<Event>, e: Event, key: ObjectKey)
    requires !e.AckStore? && !e.ResetStates?
    ensures SameCache(run + [e], run, key)
  {
    assert Front(run + [e]) == run;
  }

  lemma {:induction false} SendingKeepsCache(run: seq<Event>, key: ObjectKey, id: Byte)
    ensures SameCache(run + Read(key, id), run, key)
  {
    var sent, mapped := run + [ReadSend(key, id)], run + [ReadSend(key, id), ReadMap];
    assert mapped == sent + [ReadMap] && run + Read(key, id) == mapped + [ReadCommit];
    OtherStepsKeepCache(run, ReadSend(key, id), key);
    OtherStepsKeepCache(sent, ReadMap, key);
    OtherStepsKeepCache(mapped, ReadCommit, key);
  }

  const TEXT := AppCharacterString([])

  /** A read whose answer is a text. */
  function TextRead(key: ObjectKey, id: Byte, allocOk: bool): seq<Event> {
    Read(key, id) + Ack(key, id, TEXT, allocOk, 0)
  }

  lemma {:induction false} TextIsSent(run: seq<Event>, key: ObjectKey, id: Byte)
    requires Valid(run) && id != 0
    requires var s := Final(run); s == AtRest(s.t) && Idle(s.t.states, key)
    ensures Valid(run + Read(key, id))
    ensures var sent := run + Read(key, id);
            var s := Final(sent);
            && s == AtRest(s.t) && Busy(s.t.states, key) && id in s.t.ids && s.t.ids[id] == key
            && SameCache(sent, run, key)
  {
    SentRead(run, key, id);
    SendingKeepsCache(run, key, id);
  }

  lemma {:induction false} TextIsRead(run: seq<Event>, key: ObjectKey, id: Byte, allocOk: bool)
    requires Valid(run) && id != 0
    requires var s := Final(run); s == AtRest(s.t) && Idle(s.t.states, key)
    ensures var longer := run + TextRead(key, id, allocOk);
            && Valid(longer) && Final(longer) == AtRest(Final(longer).t) && Idle(Final(longer).t.states, key)
            && if allocOk then LastAnswer(longer, key) == Some(Answer(TEXT, 0)) && !Destroyed(longer, key)
               else LastAnswer(longer, key) == LastAnswer(run, key)
                    && (Destroyed(longer, key) <==> LastAnswer(run, key).Some?)
  {
    var sent := run + Read(key, id);
    TextIsSent(run, key, id);
    AnsweredRead(sent, key, id, TEXT, allocOk, 0);
    assert run + TextRead(key, id, allocOk) == sent + Ack(key, id, TEXT, allocOk, 0);
  }

  /** A failed allocation leaves a cache that is marked valid and holds no data, and the next read succeeds with it. */
  lemma {:induction false} DestroyedCacheIsDelivered(run: seq<Event>, key: ObjectKey, id: Byte)
    requires Valid(run) && LastAnswer(run, key).Some? && Destroyed(run, key)
    requires Idle(Final(run).t.states, key) && id != 0
    ensures ReadOutcome(Final(run).t.states, ReadRequest(key, true), Link(true, true, true, id), 0, false, 0)
         == (Success, Some(DataDangling))
  {
    CacheHoldsLastAnswer(run, key);
  }

  /** Two reads of a text, the second without memory for it: the third delivers a value without data. */
  lemma {:induction false} FailedAllocationDestroysCache(key: ObjectKey, id: Byte)
    requires id != 0
    ensures var run := TextRead(key, id, true) + TextRead(key, id, false);
            && Valid(run) && LastAnswer(run, key).Some? && Destroyed(run, key)
            && ReadOutcome(Final(run).t.states, ReadRequest(key, true), Link(true, true, true, id), 0, false, 0)
               == (Success, Some(DataDangling))
  {
    TextIsRead([], key, id, true);
    assert [] + TextRead(key, id, true) == TextRead(key, id, true);
    TextIsRead(TextRead(key, id, true), key, id, false);
    DestroyedCacheIsDelivered(TextRead(key, id, true) + TextRead(key, id, false), key, id);
  }
}
