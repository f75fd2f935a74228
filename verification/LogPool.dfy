/**
 The pool of worker threads behind the asynchronous loggers, as a machine whose steps are the sections the threads run
 under the queue's mutex. Its steps may come in any order in which they are enabled.
 */
module LogPool {
  import opened Prelude
  import Fifo = BoundedFifo

  datatype Msg = Log(id: nat) | Flush(id: nat) | Terminate

  datatype Policy = Block | OverrunOldest | DiscardNew

  datatype Job = Idle | Handling | Stopped

  /** What a worker is at, and all it has dequeued. */
  datatype Worker = Worker(job: Job, received: seq<Msg>)

  datatype Pool = Pool(capacity: nat, threads: nat)

  datatype Step =
    | Post(m: Msg, policy: Policy)
    | CountDiscard
    | StartDestruction
    | PostTerminate
    | Dequeue(w: nat)
    | Finish(w: nat)

  /**
   `accepted` are the messages of the loggers that entered the queue, `processed` those a worker has finished, in the
   order of finishing; `discarding` counts the posts that found no room and have not been counted yet.
   */
  datatype State = State(
    history: seq<Fifo.Event<Msg>>,
    accepted: seq<Msg>,
    posted: nat,
    discarding: nat,
    discarded: nat,
    destroying: bool,
    terminates: nat,
    workers: seq<Worker>,
    processed: seq<Msg>)

  function Init(p: Pool): State {
    State([], [], 0, 0, 0, false, 0, seq(p.threads, _ => Worker(Idle, [])), [])
  }

  function Waiting(p: Pool, s: State): seq<Msg> {
    Fifo.Queue(s.history, p.capacity)
  }

  predicate Full(p: Pool, s: State) {
    |Waiting(p, s)| >= p.capacity
  }

  /** What a worker is after taking `m`. */
  function Taking(w: Worker, m: Msg): Worker {
    Worker(if m.Terminate? then Stopped else Handling, w.received + [m])
  }

  /** What a worker is after finishing the message in hand. */
  function Resting(w: Worker): Worker {
    w.(job := Idle)
  }

  predicate Enabled(p: Pool, s: State, step: Step) {
    match step
    case Post(m, policy) => !s.destroying && m != Terminate && (policy.Block? ==> !Full(p, s))
    case CountDiscard => s.discarding > 0
    case StartDestruction => !s.destroying
    case PostTerminate => s.destroying && s.terminates < p.threads && !Full(p, s)
    case Dequeue(w) => w < |s.workers| && s.workers[w].job.Idle? && Waiting(p, s) != []
    case Finish(w) => w < |s.workers| && s.workers[w].job.Handling? && s.workers[w].received != []
  }

  function Next(p: Pool, s: State, step: Step): State
    requires Enabled(p, s, step)
  {
    match step
    case Post(m, policy) =>
      if policy.DiscardNew? && Full(p, s) then s.(posted := s.posted + 1, discarding := s.discarding + 1)
      else s.(posted := s.posted + 1, history := s.history + [Fifo.Push(m)], accepted := s.accepted + [m])
    case CountDiscard => s.(discarding := s.discarding - 1, discarded := s.discarded + 1)
    case StartDestruction => s.(destroying := true)
    case PostTerminate => s.(history := s.history + [Fifo.Push(Terminate)], terminates := s.terminates + 1)
    case Dequeue(w) =>
      s.(history := s.history + [Fifo.Pop], workers := s.workers[w := Taking(s.workers[w], Waiting(p, s)[0])])
    case Finish(w) =>
      s.(workers := s.workers[w := Resting(s.workers[w])], processed := s.processed + [Last(s.workers[w].received)])
  }

  predicate Valid(p: Pool, run: seq<Step>)
    decreases |run|, 0
  {
    run == [] || (Valid(p, Front(run)) && Enabled(p, Final(p, Front(run)), Last(run)))
  }

  function Final(p: Pool, run: seq<Step>): State
    requires Valid(p, run)
    decreases |run|, 1
  {
    if run == [] then Init(p) else Next(p, Final(p, Front(run)), Last(run))
  }

  // ---------------------------------------------------------------------------------------------
  // What the workers hold

  function HeldBy(w: Worker): multiset<Msg> {
    if w.job.Idle? || w.received == [] then multiset{} else multiset{Last(w.received)}
  }

  /** The messages in hand, and the terminate message of each stopped worker. */
  function Held(ws: seq<Worker>): multiset<Msg> {
    if ws == [] then multiset{} else Held(Front(ws)) + HeldBy(Last(ws))
  }

  lemma {:induction false} AddToBoth(
    a: multiset<Msg>, b: multiset<Msg>, c: multiset<Msg>, d: multiset<Msg>, l: multiset<Msg>)
    requires a + b == c + d
    ensures (a + l) + b == (c + l) + d
  {
    assert (a + l) + b == (a + b) + l;
    assert (c + l) + d == (c + d) + l;
  }

  lemma {:induction false} HeldFront(ws: seq<Worker>, i: nat, w: Worker)
    requires i < |ws|
    ensures Held(ws) == Held(Front(ws)) + HeldBy(Last(ws))
    ensures Held(ws[i := w])
         == if i == |ws| - 1 then Held(Front(ws)) + HeldBy(w) else Held(Front(ws)[i := w]) + HeldBy(Last(ws))
  {
    var us := ws[i := w];
    assert Held(us) == Held(Front(us)) + HeldBy(Last(us));
    assert Front(us) == if i == |ws| - 1 then Front(ws) else Front(ws)[i := w];
  }

  lemma {:induction false} HeldUpdate(ws: seq<Worker>, i: nat, w: Worker)
    requires i < |ws|
    ensures Held(ws[i := w]) + HeldBy(ws[i]) == Held(ws) + HeldBy(w)
  {
    HeldFront(ws, i, w);
    if i == |ws| - 1 {
      assert ws[i := w] != [] && Last(ws) == ws[i];
    } else {
      HeldUpdate(Front(ws), i, w);
      AddToBoth(Held(Front(ws)[i := w]), HeldBy(ws[i]), Held(Front(ws)), HeldBy(w), HeldBy(Last(ws)));
    }
  }

  lemma {:induction false} HeldByIdle(n: nat)
    ensures Held(seq(n, _ => Worker(Idle, []))) == multiset{}
  {
    if n > 0 {
      HeldByIdle(n - 1);
      assert Front(seq(n, _ => Worker(Idle, []))) == seq(n - 1, _ => Worker(Idle, []));
    }
  }

  /** A worker stops at its first terminate message and takes nothing after it. */
  predicate WorkerOk(w: Worker) {
    && (!w.job.Idle? ==> w.received != [])
    && (w.received != [] ==> Terminate !in Front(w.received) && (w.job.Stopped? <==> Last(w.received).Terminate?))
  }

  // ---------------------------------------------------------------------------------------------
  // The invariant

  function Terminates(n: nat): (ms: seq<Msg>)
    ensures |ms| == n
  {
    seq(n, _ => Terminate)
  }

  function Gone(p: Pool, s: State): int {
    Fifo.Gone(s.history, p.capacity)
  }

  ghost predicate LogInv(p: Pool, s: State) {
    && Fifo.Log(s.history) == s.accepted + Terminates(s.terminates)
    && Terminate !in s.accepted
    && s.terminates <= p.threads
    && (s.terminates > 0 ==> s.destroying)
    && (forall n :: n in Fifo.Dropped(s.history, p.capacity) ==> n < |s.accepted|)
    && s.posted == |s.accepted| + s.discarding + s.discarded
  }

  predicate WorkersOk(ws: seq<Worker>) {
    forall w :: 0 <= w < |ws| ==> WorkerOk(ws[w])
  }

  /** What has been dequeued is what has been finished and what is held. */
  predicate Conserved(delivered: seq<Msg>, processed: seq<Msg>, held: multiset<Msg>) {
    multiset(delivered) == multiset(processed) + held
  }

  /** How many of the items that have left the queue are terminate messages. */
  function TerminatesGone(p: Pool, s: State): nat {
    if Gone(p, s) > |s.accepted| then Gone(p, s) - |s.accepted| else 0
  }

  ghost predicate WorkInv(p: Pool, s: State) {
    && |s.workers| == p.threads
    && WorkersOk(s.workers)
    && Conserved(Fifo.Delivered(s.history, p.capacity), s.processed, Held(s.workers))
    && Terminate !in s.processed
    && Held(s.workers)[Terminate] == TerminatesGone(p, s)
  }

  ghost predicate Inv(p: Pool, s: State) {
    LogInv(p, s) && WorkInv(p, s)
  }

  lemma {:induction false} PushKeepsLogInv(p: Pool, s: State, step: Step)
    requires LogInv(p, s) && Enabled(p, s, step) && (step.Post? || step.PostTerminate?)
    ensures LogInv(p, Next(p, s, step))
  {
    var m := if step.Post? then step.m else Terminate;
    Fifo.RecordStep(s.history, Fifo.Push(m), p.capacity);
    Fifo.QueueIsSuffixOfLog(s.history, p.capacity);
    EndsWithTerminates(s.accepted, s.terminates, m);
  }

  lemma {:induction false} EndsWithTerminates(accepted: seq<Msg>, n: nat, m: Msg)
    ensures n == 0 ==> (accepted + Terminates(n)) + [m] == (accepted + [m]) + Terminates(n)
    ensures m.Terminate? ==> (accepted + Terminates(n)) + [m] == accepted + Terminates(n + 1)
  {
  }

  /** Nothing that the workers know has changed. */
  lemma {:induction false} SameWork(p: Pool, s: State, s': State)
    requires WorkInv(p, s) && s'.workers == s.workers && s'.processed == s.processed
    requires Fifo.Delivered(s'.history, p.capacity) == Fifo.Delivered(s.history, p.capacity)
    requires TerminatesGone(p, s') == TerminatesGone(p, s)
    ensures WorkInv(p, s')
  {
  }

  lemma {:induction false} PushKeepsWorkInv(p: Pool, s: State, step: Step)
    requires Inv(p, s) && Enabled(p, s, step) && (step.Post? || step.PostTerminate?)
    ensures WorkInv(p, Next(p, s, step))
  {
    PushTakesNothing(p, s, if step.Post? then step.m else Terminate);
    PushKeepsTerminates(p, s, step);
    SameWork(p, s, Next(p, s, step));
  }

  lemma {:induction false} PushKeepsTerminates(p: Pool, s: State, step: Step)
    requires LogInv(p, s) && Enabled(p, s, step) && (step.Post? || step.PostTerminate?)
    ensures TerminatesGone(p, Next(p, s, step)) == TerminatesGone(p, s)
  {
    PushTakesNothing(p, s, if step.Post? then step.m else Terminate);
    if step.Post? {
      GoneAreAccepted(p, s);
    }
  }

  lemma {:induction false} GoneAreAccepted(p: Pool, s: State)
    requires LogInv(p, s) && !s.destroying
    ensures Gone(p, s) <= |s.accepted|
  {
  }

  /** A push dequeues nothing, and gives up a message if the queue is full. */
  lemma {:induction false} PushTakesNothing(p: Pool, s: State, m: Msg)
    ensures var h := s.history + [Fifo.Push(m)];
            && Fifo.Delivered(h, p.capacity) == Fifo.Delivered(s.history, p.capacity)
            && Fifo.Gone(h, p.capacity) == Gone(p, s) + (if Full(p, s) then 1 else 0)
  {
    Fifo.RecordStep(s.history, Fifo.Push(m), p.capacity);
    Fifo.GoneStep(s.history, Fifo.Push(m), p.capacity);
  }

  lemma {:induction false} DequeueKeepsLogInv(p: Pool, s: State, w: nat)
    requires LogInv(p, s) && Enabled(p, s, Dequeue(w))
    ensures LogInv(p, Next(p, s, Dequeue(w)))
  {
    Fifo.RecordStep(s.history, Fifo.Pop, p.capacity);
  }

  /** The message at the head is a terminate message exactly when all that the loggers added have gone. */
  lemma {:induction false} HeadOfQueue(p: Pool, s: State)
    requires LogInv(p, s) && Waiting(p, s) != []
    ensures Waiting(p, s)[0].Terminate? <==> Gone(p, s) >= |s.accepted|
  {
    Fifo.QueueIsSuffixOfLog(s.history, p.capacity);
    assert Waiting(p, s)[0] == Fifo.Log(s.history)[Gone(p, s)];
    assert Gone(p, s) < |s.accepted| ==> s.accepted[Gone(p, s)] in s.accepted;
  }

  lemma {:induction false} TakingIsOk(w: Worker, m: Msg)
    requires WorkerOk(w) && w.job.Idle?
    ensures WorkerOk(Taking(w, m)) && HeldBy(Taking(w, m)) == multiset{m} && HeldBy(w) == multiset{}
  {
    assert Front(w.received + [m]) == w.received;
    assert w.received != [] ==> w.received == Front(w.received) + [Last(w.received)];
  }

  lemma {:induction false} TakeIsHeld(ws: seq<Worker>, w: nat, m: Msg)
    requires w < |ws| && WorkersOk(ws) && ws[w].job.Idle?
    ensures WorkersOk(ws[w := Taking(ws[w], m)])
    ensures Held(ws[w := Taking(ws[w], m)]) == Held(ws) + multiset{m}
  {
    TakingIsOk(ws[w], m);
    HeldUpdate(ws, w, Taking(ws[w], m));
  }

  lemma {:induction false} DeliverOne(delivered: seq<Msg>, processed: seq<Msg>, held: multiset<Msg>, m: Msg)
    requires Conserved(delivered, processed, held)
    ensures Conserved(delivered + [m], processed, held + multiset{m})
  {
  }

  lemma {:induction false} DequeueKeepsWorkInv(p: Pool, s: State, w: nat)
    requires Inv(p, s) && Enabled(p, s, Dequeue(w))
    ensures WorkInv(p, Next(p, s, Dequeue(w)))
  {
    var m := Waiting(p, s)[0];
    HeadOfQueue(p, s);
    Fifo.RecordStep(s.history, Fifo.Pop, p.capacity);
    Fifo.GoneStep(s.history, Fifo.Pop, p.capacity);
    TakeIsHeld(s.workers, w, m);
    DeliverOne(Fifo.Delivered(s.history, p.capacity), s.processed, Held(s.workers), m);
  }

  lemma {:induction false} FinishIsHeldNoMore(ws: seq<Worker>, w: nat)
    requires w < |ws| && WorkersOk(ws) && ws[w].job.Handling?
    ensures WorkersOk(ws[w := Resting(ws[w])])
    ensures ws[w].received != [] && Last(ws[w].received) != Terminate
    ensures Held(ws) == Held(ws[w := Resting(ws[w])]) + multiset{Last(ws[w].received)}
  {
    assert WorkerOk(ws[w]);
    HeldUpdate(ws, w, Resting(ws[w]));
  }

  lemma {:induction false} FinishOne(delivered: seq<Msg>, processed: seq<Msg>, held: multiset<Msg>, m: Msg)
    requires Conserved(delivered, processed, held + multiset{m})
    ensures Conserved(delivered, processed + [m], held)
  {
  }

  lemma {:induction false} FinishKeepsWork(p: Pool, s: State, w: nat)
    requires WorkInv(p, s) && Enabled(p, s, Finish(w))
    ensures var s' := Next(p, s, Finish(w));
            && WorkersOk(s'.workers) && Terminate !in s'.processed && |s'.workers| == p.threads
            && Conserved(Fifo.Delivered(s.history, p.capacity), s'.processed, Held(s'.workers))
            && Held(s'.workers)[Terminate] == Held(s.workers)[Terminate]
  {
    var m, rest := Last(s.workers[w].received), s.workers[w := Resting(s.workers[w])];
    FinishIsHeldNoMore(s.workers, w);
    FinishOne(Fifo.Delivered(s.history, p.capacity), s.processed, Held(rest), m);
  }

  lemma {:induction false} FinishKeepsInv(p: Pool, s: State, w: nat)
    requires Inv(p, s) && Enabled(p, s, Finish(w))
    ensures Inv(p, Next(p, s, Finish(w)))
  {
    FinishKeepsWork(p, s, w);
  }

  lemma {:induction false} InvFinal(p: Pool, run: seq<Step>)
    requires Valid(p, run)
    ensures Inv(p, Final(p, run))
  {
    if run == [] {
      HeldByIdle(p.threads);
      assert Terminates(0) == [];
    } else {
      InvFinal(p, Front(run));
      var s := Final(p, Front(run));
      match Last(run)
      case Dequeue(w) =>
        DequeueKeepsLogInv(p, s, w);
        DequeueKeepsWorkInv(p, s, w);
      case Finish(w) => FinishKeepsInv(p, s, w);
      case CountDiscard =>
      case StartDestruction =>
      case _ =>
        PushKeepsLogInv(p, s, Last(run));
        PushKeepsWorkInv(p, s, Last(run));
    }
  }
}
