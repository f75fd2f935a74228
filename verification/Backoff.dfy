/** Automatic reconnection: how often it is tried, and how long it waits between two tries. */
module Backoff {
  import opened Prelude

  const MAX_DELAY: int := 60

  // ---------------------------------------------------------------------------------------------
  // The delay

  datatype Config = Config(intervalMs: nat, maxAttempts: Byte)

  function Product(c: Config, attempts: nat): nat {
    (c.intervalMs / 1000) * Pow2(attempts)
  }

  /** The delay in seconds that is meant. */
  function Intended(c: Config, attempts: nat): int {
    if Product(c, attempts) < MAX_DELAY then Product(c, attempts) else MAX_DELAY
  }

  /** The delay computed: an unsigned product of 32 bits, read as an `int`. */
  function Delay(c: Config, attempts: nat): int {
    var wrapped := ToInt32(Product(c, attempts) % TWO_32);
    if wrapped < MAX_DELAY then wrapped else MAX_DELAY
  }

  /** The delay is the one meant exactly when the product is in range or wraps to a minute or more. */
  lemma {:induction false} DelayIsIntended(c: Config, attempts: nat)
    ensures Delay(c, attempts) == Intended(c, attempts)
            <==> Product(c, attempts) < TWO_31 || MAX_DELAY <= Product(c, attempts) % TWO_32 < TWO_31
  {
    var p := Product(c, attempts);
    if p < TWO_31 {
      assert p % TWO_32 == p;
    }
  }

  /** With the default interval of three seconds the delay is negative after thirty failures. */
  lemma {:induction false} DefaultIntervalWraps()
    ensures Delay(Config(3000, 31), 30) < 0 < Intended(Config(3000, 31), 30)
  {
    Pow2Of30();
    assert Product(Config(3000, 31), 30) == 3221225472;
  }

  lemma {:induction false} Pow2Of30()
    ensures Pow2(30) == 0x4000_0000
  {
    assert Pow2(10) == 1024;
    Pow2Adds(10, 10);
    Pow2Adds(10, 20);
  }

  lemma {:induction false} Pow2Adds(m: nat, n: nat)
    ensures Pow2(m + n) == Pow2(m) * Pow2(n)
  {
    if m > 0 {
      Pow2Adds(m - 1, n);
    }
  }

  /** No attempt that can be made wraps. */
  predicate NoWrap(c: Config) {
    c.maxAttempts > 0 ==> Product(c, c.maxAttempts - 1) < TWO_31
  }

  lemma {:induction false} ProductGrows(c: Config, m: nat, n: nat)
    requires m <= n
    ensures Product(c, m) <= Product(c, n)
    decreases n
  {
    if m < n {
      ProductGrows(c, m, n - 1);
      Doubles(c.intervalMs / 1000, Pow2(n - 1));
    }
  }

  lemma {:induction false} Doubles(a: nat, b: nat)
    ensures a * (2 * b) == 2 * (a * b) && a * b >= 0
  {
  }

  /** When the last attempt does not wrap, every delay is the one meant, and later ones are no shorter. */
  lemma {:induction false} NoWrapIsEnough(c: Config, attempts: nat)
    requires NoWrap(c) && attempts < c.maxAttempts
    ensures Delay(c, attempts) == Intended(c, attempts) >= 0
    ensures forall m: nat :: m <= attempts ==> Intended(c, m) <= Intended(c, attempts)
  {
    ProductGrows(c, attempts, c.maxAttempts - 1);
    DelayIsIntended(c, attempts);
    forall m: nat | m <= attempts
      ensures Intended(c, m) <= Intended(c, attempts)
    {
      ProductGrows(c, m, attempts);
    }
  }

  // ---------------------------------------------------------------------------------------------
  // The attempts

  datatype Connection = Idle | Connecting | Connected | Disconnected

  datatype State = State(connection: Connection, attempts: nat, lastAttempt: int, clock: int)

  /** The worker's check, the start and the end of a call of the user's, and a disconnection. */
  datatype Event =
    | Check(now: int, found: bool)
    | StartConnect
    | EndConnect(found: bool)
    | Disconnect
    | Initialize

  predicate Tries(c: Config, s: State, e: Event) {
    && e.Check?
    && s.connection.Disconnected?
    && s.attempts < c.maxAttempts
    && e.now - s.lastAttempt >= Delay(c, s.attempts)
  }

  function Next(c: Config, s: State, e: Event): State {
    match e
    case Check(now, found) =>
      if !Tries(c, s, e) then s.(clock := now)
      else if found then State(Connected, 0, now, now)
      else s.(attempts := s.attempts + 1, lastAttempt := now, clock := now)
    case StartConnect =>
      if s.connection.Connected? || s.connection.Connecting? then s else s.(connection := Connecting)
    case EndConnect(found) =>
      if !s.connection.Connecting? then s
      else if found then s.(connection := Connected, attempts := 0)
      else s.(connection := Disconnected, attempts := if s.attempts < c.maxAttempts then s.attempts + 1 else s.attempts)
    case Disconnect => s.(connection := Disconnected)
    case Initialize => s.(connection := Idle, attempts := 0)
  }

  /** The clock does not run backwards. */
  predicate Enabled(s: State, e: Event) {
    e.Check? ==> e.now >= s.clock
  }

  predicate Valid(c: Config, s: State, run: seq<Event>)
    decreases |run|, 0
  {
    run == [] || (Valid(c, s, run[..|run| - 1]) && Enabled(Final(c, s, run[..|run| - 1]), run[|run| - 1]))
  }

  function Final(c: Config, s: State, run: seq<Event>): State
    requires Valid(c, s, run)
    decreases |run|, 1
  {
    if run == [] then s else Next(c, Final(c, s, run[..|run| - 1]), run[|run| - 1])
  }

  /** There are never more attempts than the configured number. */
  lemma {:induction false} AttemptsAreBounded(c: Config, s: State, run: seq<Event>)
    requires Valid(c, s, run) && s.attempts <= c.maxAttempts
    ensures Final(c, s, run).attempts <= c.maxAttempts
  {
    if run != [] {
      AttemptsAreBounded(c, s, run[..|run| - 1]);
    }
  }

  /** The device is not found, and the context is not initialised again. */
  predicate Failing(run: seq<Event>) {
    forall i :: 0 <= i < |run| ==> match run[i]
                                   case Check(_, found) => !found
                                   case EndConnect(found) => !found
                                   case StartConnect => true
                                   case Disconnect => true
                                   case Initialize => false
  }

  /** Each failure doubles the product, which starts with the interval in seconds. */
  lemma {:induction false} ProductDoubles(c: Config, attempts: nat)
    ensures Product(c, 0) == c.intervalMs / 1000
    ensures Product(c, attempts + 1) == 2 * Product(c, attempts)
  {
    Doubles(c.intervalMs / 1000, Pow2(attempts));
  }

  /** The first delay: the interval in seconds, a minute at most. */
  function FirstDelay(c: Config): int {
    if c.intervalMs / 1000 < 60 then c.intervalMs / 1000 else 60
  }

  lemma {:induction false} FirstDelayIs(c: Config)
    requires c.intervalMs / 1000 < 0x8000_0000
    ensures Delay(c, 0) == FirstDelay(c)
  {
    ProductDoubles(c, 0);
  }

  /**
   A check that finds the device starts the count again: after the next disconnection the first check that tries is one
   at least the first delay later than the successful attempt, however many attempts had failed before.
   */
  lemma {:induction false} SuccessStartsAgain(c: Config, s: State, now: int, later: int, found: bool)
    requires c.intervalMs / 1000 < 0x8000_0000 && Tries(c, s, Check(now, true))
    ensures var connected := Next(c, s, Check(now, true));
            && connected.connection == Connected && connected.attempts == 0
            && (Tries(c, Next(c, connected, Disconnect), Check(later, found)) <==> later - now >= FirstDelay(c))
  {
    FirstDelayIs(c);
  }

  /** So does a call of the user that finds it; the time of the last automatic attempt stays. */
  lemma {:induction false} ConnectingStartsAgain(c: Config, s: State, later: int, found: bool)
    requires c.intervalMs / 1000 < 0x8000_0000 && s.connection in {Idle, Disconnected} && c.maxAttempts > 0
    ensures var connected := Next(c, Next(c, s, StartConnect), EndConnect(true));
            && connected.connection == Connected && connected.attempts == 0
            && (Tries(c, Next(c, connected, Disconnect), Check(later, found))
                <==> later - s.lastAttempt >= FirstDelay(c))
  {
    FirstDelayIs(c);
  }

  /** And so does an initialisation. */
  lemma {:induction false} InitializingStartsAgain(c: Config, s: State, later: int, found: bool)
    requires c.intervalMs / 1000 < 0x8000_0000 && c.maxAttempts > 0
    ensures var started := Next(c, s, Initialize);
            && started.connection == Idle && started.attempts == 0
            && (Tries(c, Next(c, started, Disconnect), Check(later, found))
                <==> later - s.lastAttempt >= FirstDelay(c))
  {
    FirstDelayIs(c);
  }

  /** A check that does not find the device makes the next one wait for the next delay, unless no attempt is left. */
  lemma {:induction false} FailureWaits(c: Config, s: State, now: int, later: int, found: bool)
    requires NoWrap(c) && Tries(c, s, Check(now, false))
    ensures var failed := Next(c, s, Check(now, false));
            && failed.connection == Disconnected && failed.attempts == s.attempts + 1
            && (Tries(c, failed, Check(later, found))
                <==> failed.attempts < c.maxAttempts && later - now >= Intended(c, s.attempts + 1))
  {
    if s.attempts + 1 < c.maxAttempts {
      NoWrapIsEnough(c, s.attempts + 1);
    }
  }

  /** The number of automatic attempts made. */
  function Tried(c: Config, s: State, run: seq<Event>): nat
    requires Valid(c, s, run)
  {
    if run == [] then 0
    else
      var before := run[..|run| - 1];
      Tried(c, s, before) + (if Tries(c, Final(c, s, before), run[|run| - 1]) then 1 else 0)
  }

  /** The delays meant for `n` attempts in a row, the first after `attempts` failures. */
  function Delays(c: Config, attempts: nat, n: nat): int {
    if n == 0 then 0 else Delays(c, attempts, n - 1) + Intended(c, attempts + n - 1)
  }

  /**
   Automatic attempts in a row, none of which finds the device, are spread over the sum of their delays at least, even
   if the user tries to connect in between. It takes that no delay wraps.
   */
  lemma {:induction false} AttemptsAreSpread(c: Config, s: State, run: seq<Event>)
    requires NoWrap(c) && Valid(c, s, run) && Failing(run)
    ensures var n, s' := Tried(c, s, run), Final(c, s, run);
            && s'.lastAttempt - s.lastAttempt >= Delays(c, s.attempts, n)
            && s'.attempts >= s.attempts + n
            && (n > 0 ==> s.attempts + n <= c.maxAttempts)
  {
    if run != [] {
      var before, e := run[..|run| - 1], run[|run| - 1];
      AttemptsAreSpread(c, s, before);
      var t := Final(c, s, before);
      if Tries(c, t, e) {
        NoWrapIsEnough(c, t.attempts);
      }
    }
  }

  // ---------------------------------------------------------------------------------------------
  // The counters of a context

  class Reconnector {
    const config: Config
    var connection: Connection
    var attempts: nat
    var lastAttempt: int

    function View(clock: int): State
      reads this
    {
      State(connection, attempts, lastAttempt, clock)
    }

    constructor (config: Config)
      ensures this.config == config && View(0) == State(Idle, 0, 0, 0)
    {
      this.config := config;
      connection, attempts, lastAttempt := Idle, 0, 0;
    }

    /** `found` says whether the device answers the discovery. The shift of a 32-bit one is defined up to 31. */
    method CheckAndReconnectIfNeeded(now: int, found: bool)
      requires connection.Disconnected? && attempts < config.maxAttempts ==> attempts <= 31
      modifies this
      ensures forall clock :: View(now) == Next(config, old(View(clock)), Check(now, found))
    {
      if connection != Disconnected {
        return;
      }
      if attempts >= config.maxAttempts {
        return;
      }
      var seconds := ToInt32((config.intervalMs / 1000) * Pow2(attempts) % TWO_32);
      var backoff := if seconds < MAX_DELAY then seconds else MAX_DELAY;
      if now - lastAttempt < backoff {
        return;
      }
      lastAttempt := now;
      if found {
        attempts := 0;
        connection := Connected;
      } else {
        attempts := attempts + 1;
      }
    }

    /** A connection that is up or under way is left alone. */
    method ConnectDevice(found: bool) returns (ok: bool)
      modifies this
      ensures forall clock :: View(clock) ==
                if old(connection) in {Connected, Connecting} then old(View(clock))
                else Next(config, Next(config, old(View(clock)), StartConnect), EndConnect(found))
      ensures ok <==> connection in {Connected, Connecting}
    {
      if connection == Connected {
        return true;
      }
      if connection == Connecting {
        return true;
      }
      connection := Connecting;
      if !found {
        connection := Disconnected;
        if attempts < config.maxAttempts {
          attempts := attempts + 1;
        }
        return false;
      }
      connection := Connected;
      attempts := 0;
      return true;
    }
  }
}
