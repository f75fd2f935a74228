/** What holds in every run of the log pool: order, shutdown, and what a completed flush means. */
module LogPoolRuns {
  import opened Prelude
  import Fifo = BoundedFifo
  import opened LogPool

  // ---------------------------------------------------------------------------------------------
  // Posts

  /** The messages the loggers posted, in order. */
  function PostsOf(run: seq<Step>): seq<Msg> {
    if run == [] then []
    else PostsOf(Front(run)) + (if Last(run).Post? then [Last(run).m] else [])
  }

  predicate OnlyBlocking(run: seq<Step>) {
    forall i :: 0 <= i < |run| && run[i].Post? ==> run[i].policy == Block
  }

  /** Each message posted was accepted, has been counted as discarded, or is about to be. */
  lemma {:induction false} PostsAreAccountedFor(p: Pool, run: seq<Step>)
    requires Valid(p, run)
    ensures var s := Final(p, run);
            |PostsOf(run)| == |s.accepted| + s.discarding + s.discarded
    ensures var s := Final(p, run);
            |s.accepted| + s.terminates
            == |Fifo.Delivered(s.history, p.capacity)| + |Fifo.Dropped(s.history, p.capacity)| + |Waiting(p, s)|
  {
    PostedCounts(p, run);
    InvFinal(p, run);
    Fifo.PushesAreAccountedFor(Final(p, run).history, p.capacity);
  }

  lemma {:induction false} PostedCounts(p: Pool, run: seq<Step>)
    requires Valid(p, run)
    ensures |PostsOf(run)| == Final(p, run).posted
  {
    if run != [] {
      PostedCounts(p, Front(run));
    }
  }

  /** Posts that wait for room are all accepted, in order, and none is given up. */
  lemma {:induction false} BlockingLosesNothing(p: Pool, run: seq<Step>)
    requires Valid(p, run) && OnlyBlocking(run)
    ensures var s := Final(p, run);
            s.accepted == PostsOf(run) && Fifo.Dropped(s.history, p.capacity) == []
  {
    if run != [] {
      BlockingLosesNothing(p, Front(run));
      var s := Final(p, Front(run));
      match Last(run)
      case Post(m, _) => Fifo.RecordStep(s.history, Fifo.Push(m), p.capacity);
      case PostTerminate => Fifo.RecordStep(s.history, Fifo.Push(Terminate), p.capacity);
      case Dequeue(_) => Fifo.RecordStep(s.history, Fifo.Pop, p.capacity);
      case _ =>
    }
  }

  // ---------------------------------------------------------------------------------------------
  // Order and shutdown

  predicate AllStopped(s: State) {
    forall w :: 0 <= w < |s.workers| ==> s.workers[w].job.Stopped?
  }

  lemma {:induction false} HeldByStopped(w: Worker)
    requires WorkerOk(w)
    ensures HeldBy(w)[Terminate] == if w.job.Stopped? then 1 else 0
  {
  }

  lemma {:induction false} StoppedFront(ws: seq<Worker>)
    requires ws != []
    ensures WorkersOk(ws) ==> WorkersOk(Front(ws))
    ensures (forall w :: 0 <= w < |ws| ==> ws[w].job.Stopped?)
            <==> Last(ws).job.Stopped? && forall w :: 0 <= w < |Front(ws)| ==> Front(ws)[w].job.Stopped?
  {
    assert forall w :: 0 <= w < |ws| - 1 ==> ws[w] == Front(ws)[w];
  }

  lemma {:induction false} HeldTerminates(ws: seq<Worker>)
    requires WorkersOk(ws)
    ensures Held(ws)[Terminate] <= |ws|
    ensures Held(ws)[Terminate] == |ws| <==> forall w :: 0 <= w < |ws| ==> ws[w].job.Stopped?
  {
    if ws != [] {
      StoppedFront(ws);
      HeldTerminates(Front(ws));
      assert WorkerOk(Last(ws));
      HeldByStopped(Last(ws));
    }
  }

  lemma {:induction false} HeldStopped(ws: seq<Worker>)
    requires WorkersOk(ws) && forall w :: 0 <= w < |ws| ==> ws[w].job.Stopped?
    ensures Held(ws) == multiset(Terminates(|ws|))
  {
    if ws == [] {
      assert Terminates(0) == [];
    } else {
      HeldStopped(Front(ws));
      assert WorkerOk(Last(ws));
      assert Terminates(|ws|) == Terminates(|ws| - 1) + [Terminate];
    }
  }

  ghost predicate SomeStopped(s: State) {
    exists w :: 0 <= w < |s.workers| && s.workers[w].job.Stopped?
  }

  /** Once a worker has taken a terminate message, each earlier message has been dequeued or given up, not both. */
  lemma {:induction false} AllBeforeTheFirstTerminate(p: Pool, run: seq<Step>)
    requires Valid(p, run) && SomeStopped(Final(p, run))
    ensures var s := Final(p, run);
            forall n :: 0 <= n < |s.accepted| ==>
              (n in Fifo.Taken(s.history, p.capacity) <==> n !in Fifo.Dropped(s.history, p.capacity))
  {
    InvFinal(p, run);
    var s := Final(p, run);
    var w :| 0 <= w < |s.workers| && s.workers[w].job.Stopped?;
    StoppedIsHeld(s.workers, w);
    Fifo.GoneAreTakenOrDropped(s.history, p.capacity);
  }

  /** What has been dequeued is what the loggers added, in order and at most once, and then terminate messages. */
  lemma {:induction false} DequeuedInOrder(p: Pool, run: seq<Step>)
    requires Valid(p, run)
    ensures var s := Final(p, run);
            var taken, delivered := Fifo.Taken(s.history, p.capacity), Fifo.Delivered(s.history, p.capacity);
            && |delivered| == |taken| && Fifo.Increasing(taken)
            && (forall i :: 0 <= i < |taken| ==>
                  0 <= taken[i] && delivered[i] == if taken[i] < |s.accepted| then s.accepted[taken[i]] else Terminate)
  {
    InvFinal(p, run);
    Fifo.DeliveredIsSubsequence(Final(p, run).history, p.capacity);
  }

  lemma {:induction false} StoppedIsHeld(ws: seq<Worker>, w: nat)
    requires WorkersOk(ws) && w < |ws| && ws[w].job.Stopped?
    ensures Held(ws)[Terminate] > 0
  {
    assert WorkerOk(ws[w]);
    if w < |ws| - 1 {
      assert Front(ws)[w] == ws[w];
      StoppedIsHeld(Front(ws), w);
    }
  }

  /**
   When all workers have stopped the queue is empty, as many terminate messages were posted as there are workers, each
   worker's last message and no other is one, and the messages processed are those dequeued.
   */
  lemma {:induction false} JoinedPoolIsDrained(p: Pool, run: seq<Step>)
    requires Valid(p, run) && p.threads > 0 && AllStopped(Final(p, run))
    ensures var s := Final(p, run);
            && Waiting(p, s) == [] && s.terminates == p.threads
            && (forall w :: 0 <= w < |s.workers| ==>
                  var received := s.workers[w].received;
                  received != [] && Last(received) == Terminate && Terminate !in Front(received))
            && multiset(Fifo.Delivered(s.history, p.capacity))
               == multiset(s.processed) + multiset(Terminates(p.threads))
  {
    InvFinal(p, run);
    var s := Final(p, run);
    HeldStopped(s.workers);
    HeldTerminates(s.workers);
    assert forall w :: 0 <= w < |s.workers| ==> WorkerOk(s.workers[w]);
  }

  /** With blocking posts, a pool that has been joined has processed every message posted, each exactly once. */
  lemma {:induction false} JoinedPoolHasProcessedAll(p: Pool, run: seq<Step>)
    requires Valid(p, run) && OnlyBlocking(run)
    requires p.threads > 0 && AllStopped(Final(p, run))
    ensures multiset(Final(p, run).processed) == multiset(PostsOf(run))
    ensures p.threads == 1 ==> Final(p, run).processed == PostsOf(run)
  {
    var s := Final(p, run);
    InvFinal(p, run);
    JoinedPoolIsDrained(p, run);
    BlockingLosesNothing(p, run);
    Fifo.NothingLost(s.history, p.capacity);
    var delivered, ends := Fifo.Delivered(s.history, p.capacity), Terminates(p.threads);
    assert delivered == PostsOf(run) + ends;
    SameRest(multiset(s.processed), multiset(PostsOf(run)), multiset(ends));
    if p.threads == 1 {
      OneWorkerKeepsOrder(p, run);
      assert WorkerOk(s.workers[0]);
      assert s.processed + [Terminate] == PostsOf(run) + [Terminate];
      assert (s.processed + [Terminate])[..|s.processed|] == s.processed;
      assert (PostsOf(run) + [Terminate])[..|PostsOf(run)|] == PostsOf(run);
    }
  }

  lemma {:induction false} SameRest(a: multiset<Msg>, b: multiset<Msg>, c: multiset<Msg>)
    requires a + c == b + c
    ensures a == b
  {
    assert a == (a + c) - c;
    assert b == (b + c) - c;
  }

  /**
   After any run a post can be made unless the pool is being destroyed or the post would have to block. It adds the
   message behind all accepted ones, gives up the oldest waiting one only if that policy finds no room, and is discarded
   if and only if that policy finds none.
   */
  lemma {:induction false} PostOutcome(p: Pool, run: seq<Step>, m: Msg, policy: Policy)
    requires Valid(p, run) && m != Terminate
    ensures var s := Final(p, run);
            var room := |Waiting(p, s)| < p.capacity;
            && (Enabled(p, s, Post(m, policy)) <==> !s.destroying && (policy.Block? ==> room))
            && (Enabled(p, s, Post(m, policy)) ==>
                  var t := Next(p, s, Post(m, policy));
                  && t.accepted == (if policy.DiscardNew? && !room then s.accepted else s.accepted + [m])
                  && t.discarding == s.discarding + (if policy.DiscardNew? && !room then 1 else 0)
                  && |Fifo.Dropped(t.history, p.capacity)| - |Fifo.Dropped(s.history, p.capacity)|
                     == (if policy.OverrunOldest? && !room then 1 else 0))
  {
    Fifo.RecordStep(Final(p, run).history, Fifo.Push(m), p.capacity);
  }

  // ---------------------------------------------------------------------------------------------
  // One worker

  function InHand(w: Worker): seq<Msg> {
    if w.job.Idle? || w.received == [] then [] else [Last(w.received)]
  }

  ghost predicate InOrder(p: Pool, s: State) {
    |s.workers| == 1 && Fifo.Delivered(s.history, p.capacity) == s.processed + InHand(s.workers[0])
  }

  lemma {:induction false} TakeInOrder(p: Pool, s: State, w: nat)
    requires InOrder(p, s) && Enabled(p, s, Dequeue(w))
    ensures InOrder(p, Next(p, s, Dequeue(w)))
  {
    Fifo.RecordStep(s.history, Fifo.Pop, p.capacity);
    assert InHand(Taking(s.workers[0], Waiting(p, s)[0])) == [Waiting(p, s)[0]];
  }

  lemma {:induction false} PushInOrder(p: Pool, s: State, m: Msg)
    ensures Fifo.Delivered(s.history + [Fifo.Push(m)], p.capacity) == Fifo.Delivered(s.history, p.capacity)
  {
    Fifo.RecordStep(s.history, Fifo.Push(m), p.capacity);
  }

  /** A single worker finishes the messages in the order in which it dequeues them. */
  lemma {:induction false} OneWorkerKeepsOrder(p: Pool, run: seq<Step>)
    requires Valid(p, run) && p.threads == 1
    ensures InOrder(p, Final(p, run))
  {
    if run != [] {
      OneWorkerKeepsOrder(p, Front(run));
      var s := Final(p, Front(run));
      match Last(run)
      case Post(m, _) => PushInOrder(p, s, m);
      case PostTerminate => PushInOrder(p, s, Terminate);
      case Dequeue(w) => TakeInOrder(p, s, w);
      case _ =>
    }
  }

  /**
   A flush, told apart from all other messages, has been completed: all messages accepted before it and not given up
   have been processed, each as often as it was accepted.
   */
  ghost predicate FlushMeansProcessed(p: Pool, s: State) {
    forall m :: 0 <= m < |s.accepted| && s.accepted[m].Flush? && Once(s.accepted, m) && s.accepted[m] in s.processed ==>
      multiset(Fifo.KeptBefore(s.accepted, Fifo.Dropped(s.history, p.capacity), m)) <= multiset(s.processed)
  }

  predicate Once(ms: seq<Msg>, m: nat)
    requires m < |ms|
  {
    forall i :: 0 <= i < |ms| && ms[i] == ms[m] ==> i == m
  }

  lemma {:induction false} PrefixIsContained(kept: seq<Msg>, processed: seq<Msg>)
    requires kept <= processed
    ensures multiset(kept) <= multiset(processed)
  {
    assert processed == kept + processed[|kept|..];
  }

  /** What is kept before a message that stands once comes before it wherever it is finished. */
  lemma {:induction false} EarlierCameFirst(
    log: seq<Msg>, dropped: seq<int>, gone: nat, processed: seq<Msg>, m: nat)
    requires m < |log| && gone <= |log| && Once(log, m) && log[m] in processed
    requires processed <= Fifo.KeptBefore(log, dropped, gone)
    ensures Fifo.KeptBefore(log, dropped, m) <= processed
  {
    var kept := Fifo.KeptBefore(log, dropped, m);
    Fifo.KeptHolds(log, dropped, gone, log[m]);
    Fifo.KeptGrows(log, dropped, m, gone);
    if log[m] in kept {
      Fifo.KeptHolds(log, dropped, m, log[m]);
    }
  }

  lemma {:induction false} OnceInLog(accepted: seq<Msg>, ends: nat, m: nat)
    requires m < |accepted| && Once(accepted, m) && accepted[m] != Terminate
    ensures Once(accepted + Terminates(ends), m)
  {
  }

  lemma {:induction false} OneWorkerFlush(p: Pool, run: seq<Step>)
    requires Valid(p, run) && p.threads == 1
    ensures FlushMeansProcessed(p, Final(p, run))
  {
    var s := Final(p, run);
    InvFinal(p, run);
    OneWorkerKeepsOrder(p, run);
    Fifo.KeptIsDelivered(s.history, p.capacity);
    var dropped := Fifo.Dropped(s.history, p.capacity);
    forall m | 0 <= m < |s.accepted| && s.accepted[m].Flush? && Once(s.accepted, m) && s.accepted[m] in s.processed
      ensures multiset(Fifo.KeptBefore(s.accepted, dropped, m)) <= multiset(s.processed)
    {
      EarlierAccepted(s.accepted, s.terminates, dropped, Gone(p, s), s.processed, m);
      PrefixIsContained(Fifo.KeptBefore(s.accepted, dropped, m), s.processed);
    }
  }

  lemma {:induction false} EarlierAccepted(
    accepted: seq<Msg>, ends: nat, dropped: seq<int>, gone: nat, processed: seq<Msg>, m: nat)
    requires m < |accepted| && Once(accepted, m) && accepted[m] != Terminate && accepted[m] in processed
    requires gone <= |accepted| + ends && processed <= Fifo.KeptBefore(accepted + Terminates(ends), dropped, gone)
    ensures Fifo.KeptBefore(accepted, dropped, m) <= processed
  {
    var log := accepted + Terminates(ends);
    OnceInLog(accepted, ends, m);
    EarlierCameFirst(log, dropped, gone, processed, m);
    assert log[..m] == accepted[..m];
    Fifo.KeptAgree(log, accepted, dropped, dropped, m);
  }

  ghost predicate Reachable(p: Pool, s: State) {
    exists run :: Valid(p, run) && Final(p, run) == s
  }

  lemma {:induction false} ReachNext(p: Pool, s: State, step: Step)
    requires Reachable(p, s) && Enabled(p, s, step)
    ensures Reachable(p, Next(p, s, step))
  {
    var run :| Valid(p, run) && Final(p, run) == s;
    assert Front(run + [step]) == run;
    assert Valid(p, run + [step]) && Final(p, run + [step]) == Next(p, s, step);
  }

  /** A message posted to an empty queue and taken by an idle worker. */
  function PostedAndTaken(s: State, m: Msg, w: nat): State
    requires w < |s.workers|
  {
    s.(posted := s.posted + 1, history := s.history + [Fifo.Push(m)] + [Fifo.Pop], accepted := s.accepted + [m],
       workers := s.workers[w := Taking(s.workers[w], m)])
  }

  lemma {:induction false} PostAndTake(p: Pool, s: State, m: Msg, w: nat)
    requires Reachable(p, s) && p.capacity > 0 && Waiting(p, s) == [] && m != Terminate
    requires !s.destroying && w < |s.workers| && s.workers[w].job.Idle?
    ensures Reachable(p, PostedAndTaken(s, m, w)) && Waiting(p, PostedAndTaken(s, m, w)) == []
    ensures Fifo.Dropped(PostedAndTaken(s, m, w).history, p.capacity) == Fifo.Dropped(s.history, p.capacity)
  {
    ReachNext(p, s, Post(m, Block));
    var s1 := Next(p, s, Post(m, Block));
    Fifo.QueueStep(s.history, Fifo.Push(m), p.capacity);
    Fifo.RecordStep(s.history, Fifo.Push(m), p.capacity);
    assert Waiting(p, s1) == [m];
    ReachNext(p, s1, Dequeue(w));
    Fifo.QueueStep(s1.history, Fifo.Pop, p.capacity);
    Fifo.RecordStep(s1.history, Fifo.Pop, p.capacity);
  }

  lemma {:induction false} KeptOne(ms: seq<Msg>)
    requires ms != []
    ensures Fifo.KeptBefore(ms, [], 1) == [ms[0]]
  {
    assert Fifo.KeptBefore(ms, [], 0) == [];
  }

  lemma {:induction false} OvertakenFlush(p: Pool, s: State)
    requires s.accepted == [Log(0), Flush(1)] && s.processed == [Flush(1)]
    requires Fifo.Dropped(s.history, p.capacity) == []
    ensures !FlushMeansProcessed(p, s)
  {
    assert Once(s.accepted, 1) && s.accepted[1] in s.processed;
    KeptOne(s.accepted);
    assert Log(0) in multiset([Log(0)]) && Log(0) !in multiset(s.processed);
  }

  /** Two workers and room for a message: the second completes a flush while the first still has a message. */
  lemma {:induction false} FlushOvertakes(p: Pool)
    requires p.threads > 1 && p.capacity > 0
    ensures exists run :: Valid(p, run) && !FlushMeansProcessed(p, Final(p, run))
  {
    assert Valid(p, []) && Final(p, []) == Init(p);
    PostAndTake(p, Init(p), Log(0), 0);
    var one := PostedAndTaken(Init(p), Log(0), 0);
    PostAndTake(p, one, Flush(1), 1);
    var two := PostedAndTaken(one, Flush(1), 1);
    assert Last(two.workers[1].received) == Flush(1);
    ReachNext(p, two, Finish(1));
    var s := Next(p, two, Finish(1));
    assert s.accepted == [Log(0), Flush(1)] && s.processed == [Flush(1)];
    assert Fifo.Dropped(s.history, p.capacity) == [];
    OvertakenFlush(p, s);
  }

  /**
   In a pool with room for a message, a completed flush means that every earlier message was processed, in every run,
   exactly when the pool has one worker.
   */
  lemma {:induction false} FlushGuaranteeNeedsOneWorker(p: Pool)
    requires p.threads > 0 && p.capacity > 0
    ensures (forall run :: Valid(p, run) ==> FlushMeansProcessed(p, Final(p, run))) <==> p.threads == 1
  {
    if p.threads == 1 {
      forall run | Valid(p, run)
        ensures FlushMeansProcessed(p, Final(p, run))
      {
        OneWorkerFlush(p, run);
      }
    } else {
      FlushOvertakes(p);
    }
  }

  // ---------------------------------------------------------------------------------------------
  // The destructor returns

  /** Every step of a pool under destruction makes this smaller. */
  function Work(p: Pool, s: State): int {
    3 * (p.threads - s.terminates) + 2 * |Waiting(p, s)| + |Held(s.workers)| + s.discarding
  }

  lemma {:induction false} WorkShrinks(p: Pool, s: State, step: Step)
    requires Inv(p, s) && s.destroying && Enabled(p, s, step)
    ensures Next(p, s, step).destroying && 0 <= Work(p, Next(p, s, step)) < Work(p, s)
  {
    match step
    case PostTerminate => Fifo.QueueStep(s.history, Fifo.Push(Terminate), p.capacity);
    case Dequeue(w) =>
      Fifo.QueueStep(s.history, Fifo.Pop, p.capacity);
      TakeIsHeld(s.workers, w, Waiting(p, s)[0]);
    case Finish(w) => FinishIsHeldNoMore(s.workers, w);
    case _ =>
  }

  /** Unless all workers have stopped, some step other than the counting of a discard can be taken. */
  lemma {:induction false} SomeStepIsEnabled(p: Pool, s: State)
    requires Inv(p, s) && s.destroying && p.capacity > 0 && !AllStopped(s)
    ensures exists step :: Enabled(p, s, step) && !step.CountDiscard?
  {
    var w :| 0 <= w < |s.workers| && !s.workers[w].job.Stopped?;
    assert WorkerOk(s.workers[w]);
    if s.workers[w].job.Handling? {
      assert Enabled(p, s, Finish(w));
    } else if Waiting(p, s) != [] {
      assert Enabled(p, s, Dequeue(w));
    } else if s.terminates < p.threads {
      assert Enabled(p, s, PostTerminate);
    } else {
      HeldTerminates(s.workers);
      assert false;
    }
  }

  /** The destructor's steps and the workers' come to an end: no continuation is longer than the work left. */
  lemma {:induction false} DestructionIsBounded(p: Pool, run: seq<Step>, more: seq<Step>)
    requires Valid(p, run) && Final(p, run).destroying && Valid(p, run + more)
    ensures |more| <= Work(p, Final(p, run)) - Work(p, Final(p, run + more)) && Final(p, run + more).destroying
  {
    if more == [] {
      assert run + more == run;
    } else {
      assert Front(run + more) == run + Front(more);
      DestructionIsBounded(p, run, Front(more));
      InvFinal(p, run + Front(more));
      WorkShrinks(p, Final(p, run + Front(more)), Last(more));
    }
  }

  /** Whatever order the steps are taken in, when no step is left every worker has stopped. */
  lemma {:induction false} DestructionEndsJoined(p: Pool, run: seq<Step>)
    requires Valid(p, run) && Final(p, run).destroying && p.capacity > 0
    requires forall step :: Enabled(p, Final(p, run), step) ==> step.CountDiscard?
    ensures AllStopped(Final(p, run))
  {
    InvFinal(p, run);
    if !AllStopped(Final(p, run)) {
      SomeStepIsEnabled(p, Final(p, run));
    }
  }

  /** A queue without room takes no terminate message: its workers never stop and the destructor never returns. */
  lemma {:induction false} NoRoomNeverJoins(p: Pool, run: seq<Step>)
    requires Valid(p, run) && p.capacity == 0 && p.threads > 0
    ensures !AllStopped(Final(p, run)) && Final(p, run).terminates == 0
  {
    NoRoomNoTerminates(p, run);
    InvFinal(p, run);
    var s := Final(p, run);
    if AllStopped(s) {
      JoinedPoolIsDrained(p, run);
    }
  }

  lemma {:induction false} NoRoomNoTerminates(p: Pool, run: seq<Step>)
    requires Valid(p, run) && p.capacity == 0
    ensures Final(p, run).terminates == 0
  {
    if run != [] {
      NoRoomNoTerminates(p, Front(run));
    }
  }
}
