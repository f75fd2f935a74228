/** Accounting of write requests over every run. */
module BacnetWrites {
  import opened Prelude
  import opened BacnetTables
  import opened BacnetMachine

  /** What has become of the writes sent so far. */
  datatype Ledger = Ledger(
    sent: multiset<WriteItem>, acked: multiset<WriteItem>, errored: multiset<WriteItem>, expired: multiset<WriteItem>,
    overwritten: multiset<WriteItem>, dropped: multiset<WriteItem>)

  function Entry(writes: map<Byte, WriteItem>, id: Byte): multiset<WriteItem> {
    if id in writes then multiset{writes[id]} else multiset{}
  }

  function Items(writes: map<Byte, WriteItem>, ids: set<Byte>): set<WriteItem> {
    set i | i in ids && i in writes :: writes[i]
  }

  function Record(l: Ledger, s: State, e: Event): Ledger {
    match e
    case WriteSend(item) => l.(sent := l.sent + multiset{item})
    case WriteMap =>
      if s.writer.Some? then l.(overwritten := l.overwritten + Entry(s.t.writes, s.writer.value.invokeId)) else l
    case WriteAck(_) => l.(acked := l.acked + Gone(s, e))
    case WriteError(_) => l.(errored := l.errored + Gone(s, e))
    case SweepWrites(_) => l.(expired := l.expired + Gone(s, e))
    case ResetWrites => l.(dropped := l.dropped + Pending(s.t.writes))
    case _ => l
  }

  function Books(run: seq<Event>): Ledger
    requires Valid(run)
  {
    if run == [] then Ledger(multiset{}, multiset{}, multiset{}, multiset{}, multiset{}, multiset{})
    else Record(Books(Front(run)), Final(Front(run)), Last(run))
  }

  function Pending(writes: map<Byte, WriteItem>): multiset<WriteItem> {
    multiset(Items(writes, writes.Keys))
  }

  function Registering(s: State): multiset<WriteItem> {
    if s.writer.Some? then multiset{s.writer.value} else multiset{}
  }

  ghost predicate ItemInv(id: Byte, item: WriteItem) {
    id != 0 && item.invokeId == id && item.timeoutMs > 0
  }

  ghost predicate WritesInv(s: State) {
    && (forall i :: i in s.t.writes ==> ItemInv(i, s.t.writes[i]))
    && (s.writer.Some? ==> ItemInv(s.writer.value.invokeId, s.writer.value))
  }

  ghost predicate Balanced(l: Ledger, s: State) {
    forall x :: l.sent[x] == l.acked[x] + l.errored[x] + l.expired[x] + l.overwritten[x] + l.dropped[x]
                             + Pending(s.t.writes)[x] + Registering(s)[x]
  }

  lemma {:induction false} RemoveIds(writes: map<Byte, WriteItem>, ids: set<Byte>)
    requires forall i :: i in writes ==> writes[i].invokeId == i
    ensures var kept := writes - ids;
            Pending(writes) == Pending(kept) + multiset(Items(writes, ids))
  {
    var kept := writes - ids;
    assert Items(writes, writes.Keys) == Items(kept, kept.Keys) + Items(writes, ids) by {
      forall item | item in Items(writes, writes.Keys)
        ensures item in Items(kept, kept.Keys) || item in Items(writes, ids)
      {
        assert item.invokeId in kept || item.invokeId in ids;
      }
    }
    assert Items(kept, kept.Keys) !! Items(writes, ids);
  }

  lemma {:induction false} RemoveOne(writes: map<Byte, WriteItem>, id: Byte)
    requires forall i :: i in writes ==> writes[i].invokeId == i
    ensures var kept := writes - {id};
            Pending(writes) == Pending(kept) + Entry(writes, id)
  {
    RemoveIds(writes, {id});
    assert Items(writes, {id}) == if id in writes then {writes[id]} else {};
  }

  lemma {:induction false} AddOne(writes: map<Byte, WriteItem>, item: WriteItem)
    requires forall i :: i in writes ==> writes[i].invokeId == i
    ensures var more := writes[item.invokeId := item];
            Pending(writes) + multiset{item} == Pending(more) + Entry(writes, item.invokeId)
  {
    var more := writes[item.invokeId := item];
    RemoveOne(writes, item.invokeId);
    RemoveOne(more, item.invokeId);
    assert more - {item.invokeId} == writes - {item.invokeId};
  }

  lemma {:induction false} BalanceAdd(l: Ledger, s: State, e: Event)
    requires WritesInv(s) && Balanced(l, s) && Enabled(s, e) && e.WriteMap?
    ensures Balanced(Record(l, s, e), Next(s, e))
  {
    var item := s.writer.value;
    var more := s.t.writes[item.invokeId := item];
    var l', s' := Record(l, s, e), Next(s, e);
    AddOne(s.t.writes, item);
    forall x
      ensures l'.sent[x] == l'.acked[x] + l'.errored[x] + l'.expired[x] + l'.overwritten[x] + l'.dropped[x]
                            + Pending(s'.t.writes)[x] + Registering(s')[x]
    {
      assert (Pending(s.t.writes) + multiset{item})[x] == (Pending(more) + Entry(s.t.writes, item.invokeId))[x];
    }
  }

  /** What an event takes out of the pending table. */
  function Gone(s: State, e: Event): multiset<WriteItem> {
    match e
    case WriteAck(id) => Entry(s.t.writes, id)
    case WriteError(id) => Entry(s.t.writes, id)
    case SweepWrites(now) => multiset(Items(s.t.writes, ExpiredIds(s.t.writes, now)))
    case ResetWrites => Pending(s.t.writes)
    case _ => multiset{}
  }

  lemma {:induction false} PendingRemoved(s: State, e: Event)
    requires WritesInv(s) && Enabled(s, e)
    requires e.WriteAck? || e.WriteError? || e.SweepWrites? || e.ResetWrites?
    ensures Pending(s.t.writes) == Pending(Next(s, e).t.writes) + Gone(s, e)
  {
    match e
    case WriteAck(id) => RemoveOne(s.t.writes, id);
    case WriteError(id) => RemoveOne(s.t.writes, id);
    case SweepWrites(now) => RemoveIds(s.t.writes, ExpiredIds(s.t.writes, now));
    case ResetWrites =>
  }

  lemma {:induction false} BalanceRemove(l: Ledger, s: State, e: Event)
    requires WritesInv(s) && Balanced(l, s) && Enabled(s, e)
    requires e.WriteAck? || e.WriteError? || e.SweepWrites? || e.ResetWrites?
    ensures Balanced(Record(l, s, e), Next(s, e))
  {
    PendingRemoved(s, e);
    var w, w', gone := Pending(s.t.writes), Pending(Next(s, e).t.writes), Gone(s, e);
    forall x
      ensures w[x] == w'[x] + gone[x]
    {
      assert w[x] == (w' + gone)[x];
    }
  }

  lemma {:induction false} BalanceKept(l: Ledger, s: State, e: Event)
    requires WritesInv(s) && Balanced(l, s) && Enabled(s, e)
    ensures WritesInv(Next(s, e)) && Balanced(Record(l, s, e), Next(s, e))
  {
    WritesInvKept(s, e);
    if e.WriteMap? {
      BalanceAdd(l, s, e);
    } else if e.WriteAck? || e.WriteError? || e.SweepWrites? || e.ResetWrites? {
      BalanceRemove(l, s, e);
    } else {
      BalanceSame(l, s, e);
    }
  }

  lemma {:induction false} WritesInvKept(s: State, e: Event)
    requires WritesInv(s) && Enabled(s, e)
    ensures WritesInv(Next(s, e))
  {
  }

  lemma {:induction false} BalanceSame(l: Ledger, s: State, e: Event)
    requires WritesInv(s) && Balanced(l, s) && Enabled(s, e)
    requires !(e.WriteMap? || e.WriteAck? || e.WriteError? || e.SweepWrites? || e.ResetWrites?)
    ensures Balanced(Record(l, s, e), Next(s, e))
  {
  }

  /**
   In every run the writes sent are, as a multiset, those acknowledged, failed, expired, overwritten by reuse of
   their id or dropped by a reset, together with those pending; so each write is resolved at most once.
   Every pending entry stands under its own nonzero id with a positive timeout, and there are at most 255.
   */
  lemma {:induction false} WritesAreAccountedFor(run: seq<Event>)
    requires Valid(run)
    ensures WritesInv(Final(run)) && Balanced(Books(run), Final(run))
    ensures |Final(run).t.writes| <= 255
  {
    if run != [] {
      WritesAreAccountedFor(Front(run));
      BalanceKept(Books(Front(run)), Final(Front(run)), Last(run));
    }
    var w := Final(run).t.writes;
    forall i | i in w ensures 1 <= i <= 255 {
      assert ItemInv(i, w[i]);
    }
    KeysBounded(w.Keys, 255);
  }

  lemma {:induction false} KeysBounded(keys: set<Byte>, n: nat)
    requires forall i :: i in keys ==> 1 <= i <= n
    ensures |keys| <= n
  {
    if n > 0 {
      var rest := keys - {n};
      KeysBounded(rest, n - 1);
      assert |keys| <= |rest| + 1;
    } else {
      assert keys == {};
    }
  }
}
