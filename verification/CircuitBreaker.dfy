/** The circuit breaker with any number of calls in flight: admission, success and failure are the
    steps, in any order, and a failure or success may belong to a call admitted long ago. */
module CircuitBreaker {
  import opened Wrappers

  datatype Phase = Closed | Open | HalfOpen

  /** The fields of a breaker at one moment. */
  datatype Status = Status(phase: Phase, failures: int, successes: int, lastFailure: Option<real>)

  datatype Config = Config(failureThreshold: int, successThreshold: int, timeout: int) {
    predicate Usable() { failureThreshold >= 1 && successThreshold >= 1 }
  }

  /** `Error` is an exception the breaker does not count. */
  datatype Event = Admit(now: real) | Success | Failure(now: real) | Error

  const FRESH := Status(Closed, 0, 0, None)

  // ---------------------------------------------------------------- the breaker

  predicate ShouldAttemptReset(s: Status, now: real, c: Config) {
    s.phase == Open && (s.lastFailure == None || now - s.lastFailure.value >= c.timeout as real)
  }

  function Step(s: Status, e: Event, c: Config): Status {
    match e
    case Admit(now) => if ShouldAttemptReset(s, now, c) then s.(phase := HalfOpen, successes := 0) else s
    case Success =>
      if s.phase == HalfOpen then
        if s.successes + 1 >= c.successThreshold then Status(Closed, 0, 0, s.lastFailure)
        else s.(successes := s.successes + 1)
      else if s.phase == Closed then s.(failures := 0) else s
    case Failure(now) =>
      var t := s.(failures := s.failures + 1, lastFailure := Some(now));
      if s.phase == HalfOpen then t.(phase := Open, successes := 0)
      else if s.phase == Closed && t.failures >= c.failureThreshold then t.(phase := Open) else t
    case Error => s
  }

  predicate Admitted(s: Status, now: real, c: Config) {
    Step(s, Admit(now), c).phase != Open
  }

  class CircuitBreaker {
    const config: Config
    var phase: Phase
    var failureCount: int
    var successCount: int
    var lastFailureTime: Option<real>

    function Now(): Status
      reads this
    {
      Status(phase, failureCount, successCount, lastFailureTime)
    }

    constructor (config: Config)
      ensures this.config == config && Now() == FRESH
    {
      this.config := config;
      phase, failureCount, successCount, lastFailureTime := Closed, 0, 0, None;
    }

    /** What `call` does before it calls; false stands for the exception it raises instead. */
    method Enter(now: real) returns (admitted: bool)
      modifies this
      ensures Now() == Step(old(Now()), Admit(now), config)
      ensures admitted == Admitted(old(Now()), now, config)
    {
      var reset := false;
      if phase == Open {
        reset := lastFailureTime == None || now - lastFailureTime.value >= config.timeout as real;
      }
      if reset {
        phase := HalfOpen;
        successCount := 0;
      }
      admitted := phase != Open;
    }

    method OnSuccess()
      modifies this
      ensures Now() == Step(old(Now()), Success, config)
    {
      if phase == HalfOpen {
        successCount := successCount + 1;
        if successCount >= config.successThreshold {
          phase, failureCount, successCount := Closed, 0, 0;
        }
      } else if phase == Closed {
        failureCount := 0;
      }
    }

    method OnFailure(now: real)
      modifies this
      ensures Now() == Step(old(Now()), Failure(now), config)
    {
      failureCount := failureCount + 1;
      lastFailureTime := Some(now);
      if phase == HalfOpen {
        phase, successCount := Open, 0;
      } else if phase == Closed {
        if failureCount >= config.failureThreshold { phase := Open; }
      }
    }
  }

  // ---------------------------------------------------------------- what every run keeps

  function Run(s: Status, events: seq<Event>, c: Config): Status {
    if events == [] then s else Step(Run(s, events[..|events| - 1], c), events[|events| - 1], c)
  }

  predicate Inv(s: Status, c: Config) {
    && s.failures >= 0 && s.successes >= 0
    && (s.phase == Closed ==> s.failures < c.failureThreshold)
    && (s.phase == HalfOpen ==> s.successes < c.successThreshold)
    && (s.phase == Open ==> s.lastFailure.Some?)
  }

  lemma {:induction false} RunKeepsInv(events: seq<Event>, c: Config)
    requires c.Usable()
    ensures Inv(Run(FRESH, events, c), c)
    decreases |events|
  {
    if events != [] { RunKeepsInv(events[..|events| - 1], c); }
  }

  /** The moment of the last counted failure of a run. */
  function LastFailure(events: seq<Event>): Option<real> {
    if events == [] then None
    else
      var last := events[|events| - 1];
      if last.Failure? then Some(last.now) else LastFailure(events[..|events| - 1])
  }

  lemma {:induction false} LastFailureIsRecorded(events: seq<Event>, c: Config)
    ensures Run(FRESH, events, c).lastFailure == LastFailure(events)
    decreases |events|
  {
    if events != [] { LastFailureIsRecorded(events[..|events| - 1], c); }
  }

  /** Who is let in, after any run: everybody unless the breaker is open, and then only who comes a
      full timeout after the last failure - also one that a call in flight has reported since. */
  lemma {:induction false} AdmissionRule(events: seq<Event>, now: real, c: Config)
    requires c.Usable()
    ensures Admitted(Run(FRESH, events, c), now, c)
       <==> Run(FRESH, events, c).phase != Open
            || (LastFailure(events).Some? && now >= LastFailure(events).value + c.timeout as real)
  {
    RunKeepsInv(events, c);
    LastFailureIsRecorded(events, c);
  }

  /** From `t` on, moments do not go back, and nobody comes before the timeout is over. */
  ghost predicate WithinTimeout(events: seq<Event>, t: real, c: Config) {
    forall i | 0 <= i < |events| ::
      && (events[i].Admit? || events[i].Failure? ==> events[i].now >= t)
      && (events[i].Admit? ==> events[i].now < t + c.timeout as real)
  }

  /** Once open, the breaker stays open until the timeout is over, whatever the calls still in flight
      report ... */
  lemma {:induction false} StaysOpen(s: Status, events: seq<Event>, t: real, c: Config)
    requires s.phase == Open && s.lastFailure == Some(t) && WithinTimeout(events, t, c)
    ensures var u := Run(s, events, c); u.phase == Open && u.lastFailure.Some? && u.lastFailure.value >= t
    decreases |events|
  {
    if events != [] {
      StaysOpen(s, events[..|events| - 1], t, c);
    }
  }

  /** ... and lets nobody in. */
  lemma StaysShut(s: Status, events: seq<Event>, t: real, c: Config, i: nat)
    requires s.phase == Open && s.lastFailure == Some(t) && WithinTimeout(events, t, c)
    requires i < |events| && events[i].Admit?
    ensures !Admitted(Run(s, events[..i], c), events[i].now, c)
  {
    StaysOpen(s, events[..i], t, c);
  }

  // ---------------------------------------------------------------- when it opens

  /** How many counted failures in a row a run ends with; an admission or an uncounted exception
      does not interrupt the row. */
  function FailuresInARow(events: seq<Event>): nat {
    if events == [] then 0
    else
      var last := events[|events| - 1];
      match last
      case Success => 0
      case Failure(_) => FailuresInARow(events[..|events| - 1]) + 1
      case _ => FailuresInARow(events[..|events| - 1])
  }

  /** After any run, however often the breaker has been open before: closed, it counts the failures
      in a row. */
  lemma {:induction false} ClosedCounts(events: seq<Event>, c: Config)
    requires c.Usable()
    ensures var s := Run(FRESH, events, c); s.phase == Closed ==> s.failures == FailuresInARow(events)
    decreases |events|
  {
    if events != [] {
      ClosedCounts(events[..|events| - 1], c);
    }
  }

  /** However many calls are in flight and whatever was before: a closed breaker is opened exactly by
      the counted failure that makes `failureThreshold` of them in a row, and by nothing else. */
  lemma OpensAtThreshold(events: seq<Event>, last: Event, c: Config)
    requires c.Usable() && Run(FRESH, events, c).phase == Closed
    ensures Run(FRESH, events + [last], c).phase
         == if last.Failure? && FailuresInARow(events) == c.failureThreshold - 1 then Open else Closed
    ensures FailuresInARow(events) < c.failureThreshold
  {
    assert (events + [last])[..|events|] == events;
    ClosedCounts(events, c);
    RunKeepsInv(events, c);
  }

  // ---------------------------------------------------------------- when it closes again

  function Successes(events: seq<Event>): nat {
    if events == [] then 0 else Successes(events[..|events| - 1]) + if events[|events| - 1].Success? then 1 else 0
  }

  /** From half-open, without a failure, it takes exactly `successThreshold` successes to close. */
  lemma {:induction false} ClosesAtThreshold(s: Status, events: seq<Event>, c: Config)
    requires c.Usable() && s.phase == HalfOpen && s.successes == 0
    requires forall e | e in events :: !e.Failure?
    ensures var t := Run(s, events, c);
            if Successes(events) >= c.successThreshold then t.phase == Closed && t.failures == 0
            else t.phase == HalfOpen && t.successes == Successes(events)
    decreases |events|
  {
    if events != [] {
      var rest := events[..|events| - 1];
      assert events[|events| - 1] in events && forall e | e in rest :: e in events;
      ClosesAtThreshold(s, rest, c);
    }
  }

  lemma {:induction false} RunAppend(s: Status, a: seq<Event>, b: seq<Event>, c: Config)
    ensures Run(s, a + b, c) == Run(Run(s, a, c), b, c)
    decreases |b|
  {
    if b == [] {
      assert a + b == a;
    } else {
      assert (a + b)[..|a + b| - 1] == a + b[..|b| - 1];
      RunAppend(s, a, b[..|b| - 1], c);
    }
  }

  /** After any run: an open breaker that lets somebody in is half-open from then on, and closes, without
      a failure, exactly with the `successThreshold`-th success counted from there. */
  lemma ClosesAfterReopening(before: seq<Event>, now: real, events: seq<Event>, c: Config)
    requires c.Usable() && Run(FRESH, before, c).phase == Open && Admitted(Run(FRESH, before, c), now, c)
    requires forall e | e in events :: !e.Failure?
    ensures var t := Run(FRESH, before + [Admit(now)] + events, c);
            if Successes(events) >= c.successThreshold then t.phase == Closed && t.failures == 0
            else t.phase == HalfOpen && t.successes == Successes(events)
  {
    var s := Run(FRESH, before + [Admit(now)], c);
    assert (before + [Admit(now)])[..|before|] == before;
    assert s == Step(Run(FRESH, before, c), Admit(now), c);
    RunAppend(FRESH, before + [Admit(now)], events, c);
    ClosesAtThreshold(s, events, c);
  }

  /** One failure in half-open shuts it for a full timeout again, whoever reports it. */
  lemma ReopensAtOnce(s: Status, t: real, events: seq<Event>, c: Config)
    requires s.phase == HalfOpen && WithinTimeout(events, t, c)
    ensures Run(Step(s, Failure(t), c), events, c).phase == Open
  {
    StaysOpen(Step(s, Failure(t), c), events, t, c);
  }

  lemma {:induction false} HalfOpenStays(s: Status, events: seq<Event>, c: Config)
    requires s.phase == HalfOpen && forall i | 0 <= i < |events| :: events[i].Admit?
    ensures Run(s, events, c) == s
    decreases |events|
  {
    if events != [] {
      HalfOpenStays(s, events[..|events| - 1], c);
    }
  }

  /** Half-open limits nothing: however many calls come, all are let in. */
  lemma HalfOpenAdmitsAll(s: Status, events: seq<Event>, c: Config, i: nat)
    requires s.phase == HalfOpen && forall k | 0 <= k < |events| :: events[k].Admit?
    requires i < |events|
    ensures Admitted(Run(s, events[..i], c), events[i].now, c)
  {
    HalfOpenStays(s, events[..i], c);
  }
}
