/**
 A FIFO of bounded capacity that gives up its oldest item to make room, and what becomes of the items pushed in any
 sequence of pushes and pops. The MQTT ring and the log queue both behave as this FIFO.
 */
module BoundedFifo {
  import opened Prelude

  datatype Event<T> = Push(item: T) | Pop

  function Enqueue<T>(q: seq<T>, item: T, capacity: nat): seq<T> {
    if |q| < capacity then q + [item] else (q + [item])[1..]
  }

  /** The items waiting after the events of `h`. A pop of an empty FIFO does nothing. */
  function Queue<T>(h: seq<Event<T>>, capacity: nat): seq<T> {
    if h == [] then []
    else
      var q := Queue(Front(h), capacity);
      if Last(h).Push? then Enqueue(q, Last(h).item, capacity)
      else if q != [] then q[1..]
      else q
  }

  /** Every item pushed, in order. */
  function Log<T>(h: seq<Event<T>>): seq<T> {
    if h == [] then []
    else Log(Front(h)) + (if Last(h).Push? then [Last(h).item] else [])
  }

  /** The items popped, in order. */
  function Delivered<T>(h: seq<Event<T>>, capacity: nat): seq<T> {
    if h == [] then []
    else
      var q := Queue(Front(h), capacity);
      Delivered(Front(h), capacity) + (if Last(h).Pop? && q != [] then [q[0]] else [])
  }

  /** The number of items that have left. */
  function Gone<T>(h: seq<Event<T>>, capacity: nat): int {
    |Log(h)| - |Queue(h, capacity)|
  }

  /** The places in the log of the items popped. */
  function Taken<T>(h: seq<Event<T>>, capacity: nat): seq<int> {
    if h == [] then []
    else
      Taken(Front(h), capacity)
      + (if Last(h).Pop? && Queue(Front(h), capacity) != [] then [Gone(Front(h), capacity)] else [])
  }

  /** The places in the log of the items given up. */
  function Dropped<T>(h: seq<Event<T>>, capacity: nat): seq<int> {
    if h == [] then []
    else
      Dropped(Front(h), capacity)
      + (if Last(h).Push? && |Queue(Front(h), capacity)| >= capacity then [Gone(Front(h), capacity)] else [])
  }

  ghost predicate Increasing(s: seq<int>) {
    forall i, j :: 0 <= i < j < |s| ==> s[i] < s[j]
  }

  /** The items waiting are the newest ones pushed, in order, and never more than the capacity. */
  lemma {:induction false} QueueIsSuffixOfLog<T>(h: seq<Event<T>>, capacity: nat)
    ensures |Queue(h, capacity)| <= |Log(h)| && |Queue(h, capacity)| <= capacity
    ensures Queue(h, capacity) == Log(h)[Gone(h, capacity)..]
  {
    if h != [] {
      QueueIsSuffixOfLog(Front(h), capacity);
    }
  }

  lemma {:induction false} IncreasingSnoc(s: seq<int>, n: int)
    requires Increasing(s) && forall k :: k in s ==> k < n
    ensures Increasing(s + [n])
  {
    assert forall i :: 0 <= i < |s| ==> s[i] in s;
  }

  lemma {:induction false} GoneAreTakenOrDropped<T>(h: seq<Event<T>>, capacity: nat)
    ensures Gone(h, capacity) >= 0
    ensures Increasing(Taken(h, capacity)) && Increasing(Dropped(h, capacity))
    ensures forall n :: 0 <= n < Gone(h, capacity) <==> n in Taken(h, capacity) || n in Dropped(h, capacity)
    ensures forall n :: n in Taken(h, capacity) ==> n !in Dropped(h, capacity)
    ensures |Taken(h, capacity)| + |Dropped(h, capacity)| == Gone(h, capacity)
  {
    if h != [] {
      GoneAreTakenOrDropped(Front(h), capacity);
      QueueIsSuffixOfLog(Front(h), capacity);
      var q, n := Queue(Front(h), capacity), Gone(Front(h), capacity);
      IncreasingSnoc(Taken(Front(h), capacity), n);
      IncreasingSnoc(Dropped(Front(h), capacity), n);
      assert forall k :: k in Taken(h, capacity) <==>
        k in Taken(Front(h), capacity) || (k == n && Last(h).Pop? && q != []);
      assert forall k :: k in Dropped(h, capacity) <==>
        k in Dropped(Front(h), capacity) || (k == n && Last(h).Push? && |q| >= capacity);
    }
  }

  /** What is popped is a subsequence of what is pushed, in the order of pushing. */
  lemma {:induction false} DeliveredIsSubsequence<T>(h: seq<Event<T>>, capacity: nat)
    ensures var taken, log := Taken(h, capacity), Log(h);
            && |Delivered(h, capacity)| == |taken| && Increasing(taken)
            && forall i :: 0 <= i < |taken| ==> 0 <= taken[i] < |log| && Delivered(h, capacity)[i] == log[taken[i]]
  {
    GoneAreTakenOrDropped(h, capacity);
    if h != [] {
      DeliveredIsSubsequence(Front(h), capacity);
      QueueIsSuffixOfLog(Front(h), capacity);
      var q := Queue(Front(h), capacity);
      assert q != [] ==> q[0] == Log(Front(h))[Gone(Front(h), capacity)];
      assert Log(h)[..|Log(Front(h))|] == Log(Front(h));
    }
  }

  /** The items before place `n` that are not at one of the places given up. */
  function KeptBefore<T>(log: seq<T>, dropped: seq<int>, n: nat): seq<T>
    requires n <= |log|
  {
    if n == 0 then [] else KeptBefore(log, dropped, n - 1) + (if n - 1 in dropped then [] else [log[n - 1]])
  }

  lemma {:induction false} KeptAgree<T>(log: seq<T>, log': seq<T>, dropped: seq<int>, dropped': seq<int>, n: nat)
    requires n <= |log| && n <= |log'| && log[..n] == log'[..n]
    requires forall k :: 0 <= k < n ==> (k in dropped <==> k in dropped')
    ensures KeptBefore(log, dropped, n) == KeptBefore(log', dropped', n)
  {
    if n > 0 {
      assert log[..n][..n - 1] == log[..n - 1] && log'[..n][..n - 1] == log'[..n - 1];
      assert log[n - 1] == log[..n][n - 1] == log'[..n][n - 1];
      KeptAgree(log, log', dropped, dropped', n - 1);
    }
  }

  lemma {:induction false} KeptAreFew<T>(h: seq<Event<T>>, capacity: nat)
    ensures 0 <= Gone(h, capacity) <= |Log(h)|
    ensures forall n :: n in Dropped(h, capacity) ==> 0 <= n < Gone(h, capacity)
  {
    GoneAreTakenOrDropped(h, capacity);
  }

  /** One more event changes nothing about the items that have left before. */
  lemma {:induction false} KeptStays<T>(h: seq<Event<T>>, e: Event<T>, capacity: nat)
    ensures 0 <= Gone(h, capacity) <= |Log(h)| <= |Log(h + [e])|
    ensures KeptBefore(Log(h + [e]), Dropped(h + [e], capacity), Gone(h, capacity))
         == KeptBefore(Log(h), Dropped(h, capacity), Gone(h, capacity))
  {
    var n := Gone(h, capacity);
    KeptAreFew(h, capacity);
    RecordStep(h, e, capacity);
    assert Log(h + [e])[..n] == Log(h)[..n];
    KeptAgree(Log(h), Log(h + [e]), Dropped(h, capacity), Dropped(h + [e], capacity), n);
  }

  lemma {:induction false} NextIsKept<T>(h: seq<Event<T>>, e: Event<T>, capacity: nat)
    ensures var n, log, dropped := Gone(h, capacity), Log(h + [e]), Dropped(h + [e], capacity);
            && (Gone(h + [e], capacity) == n ==> Delivered(h + [e], capacity) == Delivered(h, capacity))
            && (Gone(h + [e], capacity) != n ==>
                  && Gone(h + [e], capacity) == n + 1 && 0 <= n < |log|
                  && Delivered(h + [e], capacity) == Delivered(h, capacity) + (if n in dropped then [] else [log[n]]))
  {
    GoneStep(h, e, capacity);
    RecordStep(h, e, capacity);
    KeptAreFew(h, capacity);
    QueueIsSuffixOfLog(h, capacity);
    assert Queue(h, capacity) != [] ==> Queue(h, capacity)[0] == Log(h)[Gone(h, capacity)];
  }

  /** What was popped is what left and was not given up. */
  lemma {:induction false} KeptIsDelivered<T>(h: seq<Event<T>>, capacity: nat)
    ensures 0 <= Gone(h, capacity) <= |Log(h)|
    ensures KeptBefore(Log(h), Dropped(h, capacity), Gone(h, capacity)) == Delivered(h, capacity)
  {
    KeptAreFew(h, capacity);
    if h != [] {
      var b, e := Front(h), Last(h);
      KeptIsDelivered(b, capacity);
      assert b + [e] == h;
      KeptStays(b, e, capacity);
      NextIsKept(b, e, capacity);
    }
  }

  /** Every item kept stands at one of the places, and what is kept before an earlier place comes first. */
  lemma {:induction false} KeptHolds<T>(log: seq<T>, dropped: seq<int>, n: nat, x: T)
    requires n <= |log| && x in KeptBefore(log, dropped, n)
    ensures exists k :: 0 <= k < n && k !in dropped && log[k] == x
  {
    if x in KeptBefore(log, dropped, n - 1) {
      KeptHolds(log, dropped, n - 1, x);
    }
  }

  lemma {:induction false} KeptGrows<T>(log: seq<T>, dropped: seq<int>, m: nat, n: nat)
    requires m <= n <= |log|
    ensures KeptBefore(log, dropped, m) <= KeptBefore(log, dropped, n)
  {
    if m < n {
      KeptGrows(log, dropped, m, n - 1);
    }
  }

  lemma {:induction false} DroppedAreOld<T>(h: seq<Event<T>>, capacity: nat)
    ensures forall n :: n in Dropped(h, capacity) ==> n + capacity < |Log(h)|
  {
    if h != [] {
      DroppedAreOld(Front(h), capacity);
      QueueIsSuffixOfLog(Front(h), capacity);
    }
  }

  /**
   Every item pushed is popped, given up or still waiting, and only one of these; an item is given up only when as
   many newer ones have been pushed as the FIFO holds, and one more.
   */
  lemma {:induction false} PushesAreAccountedFor<T>(h: seq<Event<T>>, capacity: nat)
    ensures |Log(h)| == |Delivered(h, capacity)| + |Dropped(h, capacity)| + |Queue(h, capacity)|
    ensures forall n :: 0 <= n < |Log(h)| ==>
              (if n in Taken(h, capacity) then 1 else 0) + (if n in Dropped(h, capacity) then 1 else 0)
              + (if n >= Gone(h, capacity) then 1 else 0) == 1
    ensures forall n :: n in Dropped(h, capacity) ==> n + capacity < |Log(h)|
  {
    GoneAreTakenOrDropped(h, capacity);
    DeliveredIsSubsequence(h, capacity);
    DroppedAreOld(h, capacity);
  }

  lemma {:induction false} NothingDropped<T>(h: seq<Event<T>>, e: Event<T>, capacity: nat)
    requires Dropped(h + [e], capacity) == []
    ensures Dropped(h, capacity) == [] && (e.Push? ==> |Queue(h, capacity)| < capacity)
  {
    RecordStep(h, e, capacity);
  }

  /** When nothing was given up, what was pushed is what was popped followed by what is waiting. */
  lemma {:induction false} NothingLost<T>(h: seq<Event<T>>, capacity: nat)
    requires Dropped(h, capacity) == []
    ensures Log(h) == Delivered(h, capacity) + Queue(h, capacity)
  {
    if h != [] {
      var b, e := Front(h), Last(h);
      assert b + [e] == h;
      NothingDropped(b, e, capacity);
      RecordStep(b, e, capacity);
      QueueStep(b, e, capacity);
      NothingLost(b, capacity);
      StepKeepsOrder(Delivered(b, capacity), Queue(b, capacity), e, capacity);
    }
  }

  /** A push adds at the end, and a pop moves the first of what waits to the end of what was delivered. */
  lemma {:induction false} StepKeepsOrder<T>(delivered: seq<T>, waiting: seq<T>, e: Event<T>, capacity: nat)
    ensures e.Push? && |waiting| < capacity ==>
              (delivered + waiting) + [e.item] == delivered + Enqueue(waiting, e.item, capacity)
    ensures waiting != [] ==> (delivered + [waiting[0]]) + waiting[1..] == delivered + waiting
  {
  }

  lemma {:induction false} QueueStep<T>(h: seq<Event<T>>, e: Event<T>, capacity: nat)
    ensures var q := Queue(h, capacity);
            Queue(h + [e], capacity) == if e.Push? then Enqueue(q, e.item, capacity) else if q != [] then q[1..] else q
  {
    assert Front(h + [e]) == h;
  }

  /** What one more event adds to the records. */
  lemma {:induction false} RecordStep<T>(h: seq<Event<T>>, e: Event<T>, capacity: nat)
    ensures var q, h' := Queue(h, capacity), h + [e];
            && Log(h') == Log(h) + (if e.Push? then [e.item] else [])
            && Delivered(h', capacity) == Delivered(h, capacity) + (if e.Pop? && q != [] then [q[0]] else [])
            && Dropped(h', capacity)
               == Dropped(h, capacity) + (if e.Push? && |q| >= capacity then [Gone(h, capacity)] else [])
  {
    assert Front(h + [e]) == h;
  }

  lemma {:induction false} GoneStep<T>(h: seq<Event<T>>, e: Event<T>, capacity: nat)
    ensures var q := Queue(h, capacity);
            Gone(h + [e], capacity)
            == Gone(h, capacity) + (if (if e.Push? then |q| >= capacity else q != []) then 1 else 0)
  {
    QueueStep(h, e, capacity);
    RecordStep(h, e, capacity);
    QueueIsSuffixOfLog(h, capacity);
  }
}
