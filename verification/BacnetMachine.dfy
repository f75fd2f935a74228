/**
 The request protocol as a state machine whose steps are the lock regions of the driver.
 Any number of handlers may be between their two regions (a token each); one reader may hold
 `object_states_mutex` across its send; responses come in any order, late, or for unknown ids.
 */
module BacnetMachine {
  import opened Prelude
  import opened BacnetTables

  /** The thread inside the locked region of `plc_proto_read`, if it has sent a request. */
  datatype Reader = Outside | Sent(id: Byte, key: ObjectKey) | Mapped(id: Byte, key: ObjectKey)

  datatype Kind = AckHandler | ErrorHandler | AbortHandler

  /** A handler that has erased the mapping id -> key and has not yet updated the state of key. */
  datatype Token = Token(kind: Kind, id: Byte, key: ObjectKey)

  /** How far `BacnetContext::reset` has come; it clears the three tables one lock at a time. */
  datatype ResetPhase = Running | StatesCleared | IdsCleared

  datatype State = State(t: Tables, reader: Reader, tokens: set<Token>, writer: Option<WriteItem>, reset: ResetPhase)

  /** Tables with no thread inside a region. */
  function AtRest(t: Tables): State {
    State(t, Outside, {}, None, Running)
  }

  const INIT := AtRest(EMPTY_TABLES)

  datatype Event =
    | ReadSend(key: ObjectKey, id: Byte)
    | ReadMap
    | ReadCommit
    | Take(kind: Kind, id: Byte)
    | DropAck(token: Token)
    | AckStore(token: Token, value: AppValue, allocOk: bool, now: int)
    | ReadError(token: Token, status: Status)
    | SweepReads(now: int, threshold: nat)
    | WriteSend(item: WriteItem)
    | WriteMap
    | WriteAck(id: Byte)
    | WriteError(id: Byte)
    | SweepWrites(now: int)
    | ResetStates
    | ResetIds
    | ResetWrites

  /** An abort or reject handler keeps `invoke_id_to_key_mutex` until it has updated the state. */
  predicate IdsLockFree(s: State) {
    forall t :: t in s.tokens ==> t.kind != AbortHandler
  }

  /**
   The handlers run on the worker thread, which also runs the sweeps, and on a thread that connects, while it looks for
   the device. A reset starts after it has stopped and joined the worker thread, and connecting and releasing exclude
   each other by the driver's mutex; so no handler runs while it clears the tables. It has also removed the address
   bindings, so that a reader that enters in the meantime finds no address to send to.
   */
  predicate Enabled(s: State, e: Event) {
    match e
    case ReadSend(key, id) =>
      s.reset.Running? && s.reader.Outside? && s.writer.None? && id != 0 && Idle(s.t.states, key)
    case ReadMap => s.reader.Sent? && IdsLockFree(s)
    case ReadCommit => s.reader.Mapped?
    case Take(_, id) => s.reset.Running? && id in s.t.ids && IdsLockFree(s)
    case DropAck(t) => t in s.tokens && t.kind.AckHandler?
    case AckStore(t, _, _, _) => t in s.tokens && t.kind.AckHandler? && s.reader.Outside?
    case ReadError(t, _) => t in s.tokens && !t.kind.AckHandler? && s.reader.Outside?
    case SweepReads(_, _) => s.reset.Running? && s.reader.Outside? && IdsLockFree(s)
    case WriteSend(item) => s.writer.None? && !s.reader.Sent? && item.invokeId != 0 && item.timeoutMs > 0
    case WriteMap => s.writer.Some?
    case WriteAck(_) => s.reset.Running?
    case WriteError(_) => s.reset.Running?
    case SweepWrites(_) => s.reset.Running?
    case ResetStates => s.reset.Running? && s.reader.Outside? && s.tokens == {}
    case ResetIds => s.reset.StatesCleared?
    case ResetWrites => s.reset.IdsCleared?
  }

  function Next(s: State, e: Event): State
    requires Enabled(s, e)
  {
    match e
    case ReadSend(key, id) => s.(reader := Sent(id, key))
    case ReadMap =>
      s.(t := s.t.(ids := s.t.ids[s.reader.id := s.reader.key]), reader := Mapped(s.reader.id, s.reader.key))
    case ReadCommit => s.(t := s.t.(states := MarkSent(s.t.states, s.reader.key, s.reader.id)), reader := Outside)
    case Take(kind, id) => s.(t := s.t.(ids := s.t.ids - {id}), tokens := s.tokens + {Token(kind, id, s.t.ids[id])})
    case DropAck(t) => s.(tokens := s.tokens - {t})
    case AckStore(t, v, allocOk, now) =>
      s.(t := s.t.(states := StoreAck(s.t.states, t.key, v, allocOk, now)), tokens := s.tokens - {t})
    case ReadError(t, status) => s.(t := s.t.(states := FailRead(s.t.states, t.key, status)), tokens := s.tokens - {t})
    case SweepReads(now, threshold) => s.(t := CleanReads(s.t, now, threshold))
    case WriteSend(item) => s.(writer := Some(item))
    case WriteMap => s.(t := s.t.(writes := s.t.writes[s.writer.value.invokeId := s.writer.value]), writer := None)
    case WriteAck(id) => s.(t := s.t.(writes := s.t.writes - {id}))
    case WriteError(id) => s.(t := s.t.(writes := s.t.writes - {id}))
    case SweepWrites(now) => s.(t := s.t.(writes := CleanWrites(s.t.writes, now)))
    case ResetStates => s.(t := s.t.(states := map[]), reset := StatesCleared)
    case ResetIds => s.(t := s.t.(ids := map[]), reset := IdsCleared)
    case ResetWrites => s.(t := s.t.(writes := map[]), reset := Running)
  }

  // ---------------------------------------------------------------------------------------------
  // Runs

  predicate Valid(run: seq<Event>)
    decreases |run|, 0
  {
    run == [] || (Valid(Front(run)) && Enabled(Final(Front(run)), Last(run)))
  }

  function Final(run: seq<Event>): State
    requires Valid(run)
    decreases |run|, 1
  {
    if run == [] then INIT else Next(Final(Front(run)), Last(run))
  }

  lemma {:induction false} Extend(run: seq<Event>, e: Event)
    requires Valid(run) && Enabled(Final(run), e)
    ensures Valid(run + [e]) && Final(run + [e]) == Next(Final(run), e)
  {
    assert Front(run + [e]) == run;
  }

  // ---------------------------------------------------------------------------------------------
  // The reverse map

  /** `id` is the request under way of `key`, or is about to be recorded as such by the reader. */
  predicate Holds(s: State, id: Byte, key: ObjectKey) {
    (key in s.t.states && s.t.states[key].active == id) || s.reader == Mapped(id, key)
  }

  predicate Unmapped(s: State, key: ObjectKey) {
    forall i :: i in s.t.ids ==> s.t.ids[i] != key
  }

  ghost predicate ReaderInv(s: State) {
    !s.reader.Outside? ==> s.reader.id != 0 && Idle(s.t.states, s.reader.key)
  }

  ghost predicate IdsInv(s: State) {
    forall i :: i in s.t.ids ==> Holds(s, i, s.t.ids[i])
  }

  ghost predicate TokensInv(s: State) {
    && (forall t :: t in s.tokens ==> t.id != 0 && Holds(s, t.id, t.key) && Unmapped(s, t.key))
    && (forall t, u :: t in s.tokens && u in s.tokens && t.key == u.key ==> t == u)
  }

  ghost predicate Inv(s: State) {
    && 0 !in s.t.ids
    && ReaderInv(s)
    && TokensInv(s)
    && (!s.reset.Running? ==> s.reader.Outside? && s.tokens == {} && s.t.states == map[])
    && (!s.reset.StatesCleared? ==> IdsInv(s))
  }

  lemma {:induction false} InvReader(s: State, e: Event)
    requires Inv(s) && Enabled(s, e)
    requires e.ReadSend? || e.ReadMap? || e.ReadCommit?
    ensures Inv(Next(s, e))
  {
  }

  lemma {:induction false} InvTake(s: State, e: Event)
    requires Inv(s) && Enabled(s, e) && e.Take?
    ensures Inv(Next(s, e))
  {
    var s' := Next(s, e);
    var key := s.t.ids[e.id];
    assert Holds(s, e.id, key);
    forall i | i in s'.t.ids
      ensures s'.t.ids[i] != key && Holds(s', i, s'.t.ids[i])
    {
      assert Holds(s, i, s.t.ids[i]);
    }
  }

  lemma {:induction false} InvResolve(s: State, e: Event)
    requires Inv(s) && Enabled(s, e)
    requires e.DropAck? || e.AckStore? || e.ReadError?
    ensures Inv(Next(s, e))
  {
    var s' := Next(s, e);
    assert Unmapped(s, e.token.key);
    forall i | i in s'.t.ids && !s'.reset.StatesCleared?
      ensures Holds(s', i, s'.t.ids[i])
    {
      assert Holds(s, i, s.t.ids[i]);
    }
  }

  lemma {:induction false} InvSweep(s: State, e: Event)
    requires Inv(s) && Enabled(s, e) && e.SweepReads?
    ensures Inv(Next(s, e))
  {
    var s' := Next(s, e);
    forall i | i in s'.t.ids
      ensures Holds(s', i, s'.t.ids[i])
    {
      assert Holds(s, i, s.t.ids[i]);
    }
  }

  lemma {:induction false} InvNext(s: State, e: Event)
    requires Inv(s) && Enabled(s, e)
    ensures Inv(Next(s, e))
  {
    match e
    case ReadSend(_, _) => InvReader(s, e);
    case ReadMap => InvReader(s, e);
    case ReadCommit => InvReader(s, e);
    case Take(_, _) => InvTake(s, e);
    case DropAck(_) => InvResolve(s, e);
    case AckStore(_, _, _, _) => InvResolve(s, e);
    case ReadError(_, _) => InvResolve(s, e);
    case SweepReads(_, _) => InvSweep(s, e);
    case _ =>
  }

  lemma {:induction false} InvFinal(run: seq<Event>)
    requires Valid(run)
    ensures Inv(Final(run))
  {
    if run != [] {
      InvFinal(Front(run));
      InvNext(Final(Front(run)), Last(run));
    }
  }
}
