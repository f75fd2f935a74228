/**
 Properties of every run of the read protocol: the reverse map, single flight, the exact inverse and its failures,
 and where a cached value comes from.
 */
module BacnetReads {
  import opened Prelude
  import opened BacnetTables
  import opened BacnetMachine

  // ---------------------------------------------------------------------------------------------
  // The reverse map points back

  /** A mapped id is not 0 and is the active id of the key it maps to; so no two ids map to one key. */
  predicate PointsBack(t: Tables) {
    && (forall i :: i in t.ids ==> i != 0 && t.ids[i] in t.states && t.states[t.ids[i]].active == i)
    && (forall i, j :: i in t.ids && j in t.ids && t.ids[i] == t.ids[j] ==> i == j)
  }

  /** The ids that were mapped when the last reset cleared the states. */
  function MappedAtReset(run: seq<Event>): set<Byte>
    requires Valid(run)
  {
    if run == [] then {}
    else if Last(run).ResetStates? then Final(Front(run)).t.ids.Keys
    else MappedAtReset(Front(run))
  }

  lemma {:induction false} WindowKeepsIds(run: seq<Event>)
    requires Valid(run) && Final(run).reset.StatesCleared?
    ensures Final(run).t.ids.Keys == MappedAtReset(run)
  {
    var s, e := Final(Front(run)), Last(run);
    if !e.ResetStates? {
      InvFinal(Front(run));
      WindowKeepsIds(Front(run));
    }
  }

  /**
   Whenever `object_states_mutex` is free the reverse map points back, in every run, except between the first two
   clears of a reset that found an id mapped.
   */
  lemma {:induction false} ReverseMapPointsBack(run: seq<Event>)
    requires Valid(run) && Final(run).reader.Outside?
    ensures PointsBack(Final(run).t) <==> !Final(run).reset.StatesCleared? || MappedAtReset(run) == {}
  {
    InvFinal(run);
    var s := Final(run);
    if s.reset.StatesCleared? {
      WindowKeepsIds(run);
      if i :| i in s.t.ids.Keys {
        assert s.t.ids[i] !in s.t.states;
      }
    } else {
      forall i | i in s.t.ids
        ensures i != 0 && s.t.ids[i] in s.t.states && s.t.states[s.t.ids[i]].active == i
      {
        assert Holds(s, i, s.t.ids[i]);
      }
    }
  }

  /** A read that has been sent and not answered. */
  function Read(key: ObjectKey, id: Byte): seq<Event> {
    [ReadSend(key, id), ReadMap, ReadCommit]
  }

  lemma {:induction false} SentRead(run: seq<Event>, key: ObjectKey, id: Byte)
    requires Valid(run) && id != 0
    requires var s := Final(run); s == AtRest(s.t) && Idle(s.t.states, key)
    ensures var t := Final(run).t;
            && Valid(run + Read(key, id))
            && Final(run + Read(key, id)) == AtRest(t.(states := MarkSent(t.states, key, id), ids := t.ids[id := key]))
  {
    var sent, mapped := run + [ReadSend(key, id)], run + [ReadSend(key, id), ReadMap];
    Extend(run, ReadSend(key, id));
    assert mapped == sent + [ReadMap] && run + Read(key, id) == mapped + [ReadCommit];
    Extend(sent, ReadMap);
    Extend(mapped, ReadCommit);
  }

  /** A reset finds a read under way: its mapping outlives the states. */
  lemma {:induction false} ResetWindowBreaksReverseMap(key: ObjectKey, id: Byte)
    requires id != 0
    ensures var run := Read(key, id) + [ResetStates];
            && Valid(run) && Final(run).reader.Outside? && !PointsBack(Final(run).t)
            && id in Final(run).t.ids && Final(run).t.ids[id] == key && key !in Final(run).t.states
  {
    SentRead([], key, id);
    assert [] + Read(key, id) == Read(key, id);
    Extend(Read(key, id), ResetStates);
    var t := Final(Read(key, id) + [ResetStates]).t;
    assert id in t.ids && t.ids[id] !in t.states;
  }

  // ---------------------------------------------------------------------------------------------
  // Single flight

  datatype Mark = Sending | Resolving

  /** The state of `key` is cleared of its request by this step. */
  predicate Resolves(s: State, e: Event, key: ObjectKey) {
    match e
    case AckStore(t, _, _, _) => t.key == key
    case ReadError(t, _) => t.key == key
    case SweepReads(now, threshold) => StaleKey(s.t, now, threshold, key)
    case ResetStates => Busy(s.t.states, key)
    case _ => false
  }

  /** The sends and resolutions of `key` in a run, in order. */
  function Flights(run: seq<Event>, key: ObjectKey): seq<Mark>
    requires Valid(run)
  {
    if run == [] then []
    else
      var before := Flights(Front(run), key);
      var e := Last(run);
      if e.ReadSend? && e.key == key then before + [Sending]
      else if Resolves(Final(Front(run)), e, key) then before + [Resolving]
      else before
  }

  predicate UnderWay(s: State, key: ObjectKey) {
    Busy(s.t.states, key) || (!s.reader.Outside? && s.reader.key == key)
  }

  predicate Alternates(marks: seq<Mark>) {
    forall n :: 0 <= n < |marks| ==> marks[n] == if n % 2 == 0 then Sending else Resolving
  }

  /**
   For every key, sends and resolutions alternate, starting with a send; so no second ReadProperty
   is sent while one is unresolved, and nothing is resolved twice.
   */
  lemma {:induction false} SingleFlight(run: seq<Event>, key: ObjectKey)
    requires Valid(run)
    ensures Alternates(Flights(run, key))
    ensures |Flights(run, key)| % 2 == 1 <==> UnderWay(Final(run), key)
  {
    if run != [] {
      SingleFlight(Front(run), key);
      InvFinal(Front(run));
      UnderWayChanges(Final(Front(run)), Last(run), key);
    }
  }

  lemma {:induction false} UnderWayChanges(s: State, e: Event, key: ObjectKey)
    requires Inv(s) && Enabled(s, e)
    ensures e.ReadSend? && e.key == key ==> !UnderWay(s, key) && UnderWay(Next(s, e), key)
    ensures Resolves(s, e, key) ==> UnderWay(s, key) && !UnderWay(Next(s, e), key)
    ensures !(e.ReadSend? && e.key == key) && !Resolves(s, e, key) ==> UnderWay(Next(s, e), key) == UnderWay(s, key)
  {
    if e.SweepReads? && StaleKey(s.t, e.now, e.threshold, key) {
      assert s.t.states[key].active != 0;
    }
    if e.AckStore? || e.ReadError? {
      assert Holds(s, e.token.id, e.token.key);
    }
  }

  // ---------------------------------------------------------------------------------------------
  // The exact inverse, and exactly when it fails

  /** This step leaves a key with an active id that no mapping and no handler will ever resolve. */
  predicate Orphaning(s: State, e: Event) {
    match e
    case DropAck(_) => true
    case ReadMap => s.reader.Sent? && s.reader.id in s.t.ids
    case _ => false
  }

  /** No orphaning step since the last `object_states.clear()`. */
  predicate NoOrphaning(run: seq<Event>)
    requires Valid(run)
  {
    run == [] || Last(run).ResetStates? || (NoOrphaning(Front(run)) && !Orphaning(Final(Front(run)), Last(run)))
  }

  function LiveKeys(s: State): set<ObjectKey> {
    (set k | k in s.t.states && s.t.states[k].active != 0) + (if s.reader.Mapped? then {s.reader.key} else {})
  }

  function LeftBehind(s: State, e: Event): set<ObjectKey> {
    if !Orphaning(s, e) then {}
    else if e.DropAck? then {e.token.key}
    else {s.t.ids[s.reader.id]}
  }

  /** The keys that orphaning steps of the run have left behind since the last `object_states.clear()`. */
  function Orphans(run: seq<Event>): set<ObjectKey>
    requires Valid(run)
  {
    if run == [] || Last(run).ResetStates? then {}
    else Orphans(Front(run)) + LeftBehind(Final(Front(run)), Last(run))
  }

  lemma {:induction false} OrphansExist(run: seq<Event>)
    requires Valid(run)
    ensures NoOrphaning(run) <==> Orphans(run) == {}
  {
    if run != [] {
      OrphansExist(Front(run));
      OrphaningLeavesOne(Final(Front(run)), Last(run));
    }
  }

  lemma {:induction false} OrphaningLeavesOne(s: State, e: Event)
    ensures Orphaning(s, e) <==> LeftBehind(s, e) != {}
  {
    if Orphaning(s, e) {
      if e.DropAck? {
        assert e.token.key in LeftBehind(s, e);
      } else {
        assert s.t.ids[s.reader.id] in LeftBehind(s, e);
      }
    }
  }

  predicate Awaited(s: State, key: ObjectKey) {
    (exists i :: i in s.t.ids && s.t.ids[i] == key) || (exists t :: t in s.tokens && t.key == key)
  }

  /** An orphan is live and unawaited, and every live key is an orphan or awaited. */
  ghost predicate OrphanInv(s: State, orphans: set<ObjectKey>) {
    if s.reset.StatesCleared? then orphans == {}
    else
      && (forall k :: k in orphans ==> k in LiveKeys(s) && !Awaited(s, k))
      && (forall k :: k in LiveKeys(s) ==> k in orphans || Awaited(s, k))
  }

  lemma {:induction false} OrphansFinal(run: seq<Event>)
    requires Valid(run)
    ensures OrphanInv(Final(run), Orphans(run))
  {
    if run != [] {
      OrphansFinal(Front(run));
      InvFinal(Front(run));
      OrphansNext(run);
    }
  }

  lemma {:induction false} OrphansNext(run: seq<Event>)
    requires Valid(run) && run != []
    requires Inv(Final(Front(run))) && OrphanInv(Final(Front(run)), Orphans(Front(run)))
    ensures OrphanInv(Final(run), Orphans(run))
  {
    var s, e, s' := Final(Front(run)), Last(run), Final(run);
    if !s'.reset.StatesCleared? && !s.reset.StatesCleared? {
      forall k | k in Orphans(run)
        ensures k in LiveKeys(s') && !Awaited(s', k)
      {
        OrphanStays(s, e, k, Orphans(Front(run)));
      }
      forall k | k in LiveKeys(s')
        ensures k in Orphans(run) || Awaited(s', k)
      {
        LiveStays(s, e, k, Orphans(Front(run)));
      }
    }
  }

  lemma {:induction false} OrphanStays(s: State, e: Event, k: ObjectKey, before: set<ObjectKey>)
    requires Inv(s) && Enabled(s, e) && OrphanInv(s, before)
    requires !s.reset.StatesCleared? && !e.ResetStates? && k in before + LeftBehind(s, e)
    ensures k in LiveKeys(Next(s, e)) && !Awaited(Next(s, e), k)
  {
    if e.DropAck? && k !in before {
      assert Holds(s, e.token.id, k) && Unmapped(s, k);
    } else if e.ReadMap? && k !in before {
      var i := s.reader.id;
      assert s.t.ids[i] == k && Holds(s, i, k);
      forall j | j in s.t.ids && s.t.ids[j] == k ensures j == i {
        assert Holds(s, j, k);
      }
    } else {
      assert k in LiveKeys(s) && !Awaited(s, k);
      if e.Take? {
        assert s.t.ids[e.id] != k;
      }
    }
  }

  lemma {:induction false} LiveStays(s: State, e: Event, k: ObjectKey, before: set<ObjectKey>)
    requires Inv(s) && Enabled(s, e) && OrphanInv(s, before)
    requires !s.reset.StatesCleared? && !e.ResetStates? && k in LiveKeys(Next(s, e))
    ensures k in before + LeftBehind(s, e) || Awaited(Next(s, e), k)
  {
    var s' := Next(s, e);
    if e.ReadMap? && k == s.reader.key {
      assert s'.t.ids[s.reader.id] == k;
    } else {
      assert k in LiveKeys(s);
      if k !in before {
        if i :| i in s.t.ids && s.t.ids[i] == k {
          assert Holds(s, i, k);
          if e.Take? && e.id == i {
            assert Token(e.kind, i, k) in s'.tokens;
          } else if i in s'.t.ids {
            assert (e.ReadMap? && s.reader.id == i) || s'.t.ids[i] == k;
          }
        } else {
          var t :| t in s.tokens && t.key == k;
          if t in s'.tokens {
          } else {
            assert e.token == t;
          }
        }
      }
    }
  }

  predicate ExactInverse(t: Tables) {
    && (forall i :: i in t.ids ==> t.ids[i] in t.states && t.states[t.ids[i]].active == i)
    && (forall k :: k in t.states && t.states[k].active != 0 ==>
          t.states[k].active in t.ids && t.ids[t.states[k].active] == k)
  }

  /** No thread is inside a region or between the two regions of a handler. */
  predicate Quiescent(s: State) {
    s.reader.Outside? && s.tokens == {} && !s.reset.StatesCleared?
  }

  /**
   At rest, "active id of k is i, not 0" and "i is mapped to k" say the same for all k and i exactly when,
   since the states were last cleared, no matched ACK failed to decode and no id was issued while still mapped.
   */
  lemma {:induction false} ExactInverseIffNoOrphaning(run: seq<Event>)
    requires Valid(run) && Quiescent(Final(run))
    ensures ExactInverse(Final(run).t) <==> NoOrphaning(run)
  {
    var s := Final(run);
    ReverseMapPointsBack(run);
    OrphansFinal(run);
    OrphansExist(run);
    if Orphans(run) == {} {
      forall k | k in s.t.states && s.t.states[k].active != 0
        ensures s.t.states[k].active in s.t.ids && s.t.ids[s.t.states[k].active] == k
      {
        assert k in LiveKeys(s) && Awaited(s, k);
      }
    } else {
      var k :| k in Orphans(run);
      assert k in LiveKeys(s) && !Awaited(s, k);
    }
  }

  /** An ACK whose data does not decode consumes the mapping and leaves the key with its active id. */
  lemma {:induction false} UndecodableAckBreaksInverse(key: ObjectKey, id: Byte)
    requires id != 0
    ensures var run := Read(key, id) + [Take(AckHandler, id)] + [DropAck(Token(AckHandler, id, key))];
            Valid(run) && Quiescent(Final(run)) && !ExactInverse(Final(run).t)
  {
    var read, t := Read(key, id), Token(AckHandler, id, key);
    SentRead([], key, id);
    assert [] + read == read;
    Extend(read, Take(AckHandler, id));
    Extend(read + [Take(AckHandler, id)], DropAck(t));
  }

  /** An id issued again while it is mapped moves the mapping and leaves the first key with its active id. */
  lemma {:induction false} ReissuedIdBreaksInverse(first: ObjectKey, second: ObjectKey, id: Byte)
    requires id != 0 && first != second
    ensures var run := Read(first, id) + Read(second, id);
            Valid(run) && Quiescent(Final(run)) && !ExactInverse(Final(run).t)
  {
    SentRead([], first, id);
    assert [] + Read(first, id) == Read(first, id);
    SentRead(Read(first, id), second, id);
    var t := Final(Read(first, id) + Read(second, id)).t;
    assert first in t.states && t.states[first].active == id && t.ids[id] == second;
  }

  lemma {:induction false} OrphanIsNotRead(s: State, e: Event, key: ObjectKey, orphans: set<ObjectKey>)
    requires Enabled(s, e) && OrphanInv(s, orphans) && key in orphans
    ensures !(e.ReadSend? && e.key == key)
  {
    assert key in LiveKeys(s);
  }

  /** Without a reset a key left behind stays so, and no further request is sent for it. */
  lemma {:induction false} OrphanIsNeverReadAgain(run: seq<Event>, longer: seq<Event>, key: ObjectKey)
    requires Valid(run) && Valid(longer) && run <= longer
    requires key in Orphans(run)
    requires forall n :: |run| <= n < |longer| ==> !longer[n].ResetStates?
    ensures key in Orphans(longer)
    ensures forall n :: |run| <= n < |longer| ==> !(longer[n].ReadSend? && longer[n].key == key)
    decreases |longer|
  {
    if |longer| == |run| {
      assert longer == run;
    } else {
      assert run <= Front(longer);
      var before := Front(longer);
      assert forall n :: |run| <= n < |before| ==> longer[n] == before[n];
      OrphanIsNeverReadAgain(run, before, key);
      OrphansFinal(before);
      OrphanIsNotRead(Final(before), Last(longer), key, Orphans(before));
      assert Orphans(longer) == Orphans(before) + LeftBehind(Final(before), Last(longer));
    }
  }
}
