/** What starts, installations and shutdowns achieve when nothing interrupts them and the outside world
    answers with success, and what a start returns in any case. */
module LifecycleProgress {
  import opened Wrappers
  import opened Lifecycle

  // ---------------------------------------------------------------- what a start returns

  /** A start that is not part of an installation returns success exactly if the server has answered its
      last probe: the look at the beginning or one of those after the spawn. */
  lemma StartReturns(s: State, t: nat, reply: Reply)
    requires Inv(s) && t in s.threads && s.threads[t].job == Starter && !s.threads[t].at.Finished?
    ensures var at, next := s.threads[t].at, Step(s, Go(t, reply)).threads[t];
            && next.job == Starter
            && (next.at == Finished(true) <==> reply.ok && (at.Poll? || (at.Lookup? && !reply.fault)))
  {
    assert InPart(s.threads[t]);
  }

  /** In an installation the same probe decides whether it goes on to its end or back to the former
      release. */
  lemma InstallGoesOn(s: State, t: nat, reply: Reply)
    requires t in s.threads && s.threads[t].job == Installer(First) && s.threads[t].at.Poll?
    ensures var next := Step(s, Go(t, reply)).threads[t];
            && (reply.ok ==> next == Thread(Installer(First), Releasing))
            && (!reply.ok ==> next.at == if reply.fault then StopLock else PollLock)
  {
  }

  /** A second installation is refused while one runs, and every job but a shutdown once a shutdown has
      begun; one that has begun before it looks again before it touches the server. */
  lemma Refused(s: State, t: nat, reply: Reply)
    requires t in s.threads && s.threads[t].job != Closer
    ensures var th, u := s.threads[t], Step(s, Go(t, reply));
            && (th.at.Cas? && s.sh.installRunning ==> u.threads[t].at == Finished(false) && u.sh == s.sh)
            && (th.at.Entry? && s.sh.shuttingDown ==> u.threads[t].at == Finished(false) && u.sh == s.sh)
            && (th.at.RunFlag? && (s.sh.shuttingDown || !reply.ok) ==> u.threads[t].at == Releasing && u.sh == s.sh)
            && (th.at.LockedFlag? && s.sh.shuttingDown ==> u.sh == s.sh.(lock := None))
  {
  }

  /** A probe that is not answered yet: the start looks whether its server still runs, and probes again
      if it does; otherwise it is over. */
  lemma ProbesAgain(s: State, t: nat)
    requires t in s.threads && s.threads[t] == Thread(Starter, Poll) && s.sh.lock == None
    ensures var u := Step(Step(Step(s, Go(t, NOT_YET)), Go(t, Success(PollLock))), Go(t, Success(PollInspect)));
            && t in u.threads && u.sh == s.sh
            && u.threads[t] == if ServerUp(s.sh) then Thread(Starter, Poll) else Thread(Starter, Finished(false))
  {
    var u1 := Step(s, Go(t, NOT_YET));
    assert u1.threads[t] == Thread(Starter, PollLock) && u1.sh == s.sh;
    var u2 := Step(u1, Go(t, Success(PollLock)));
    assert u2.threads[t] == Thread(Starter, PollInspect) && u2.sh == s.sh.(lock := Some(t));
  }

  const NOT_YET := Reply(false, false, false)

  // ---------------------------------------------------------------- alone

  /** The answers of success; the server is installed, and not healthy before it is started. */
  function Success(at: Phase): Reply { Reply(!at.Lookup?, false, false) }

  /** More steps than a thread has before it when everything succeeds. */
  function StartLeft(at: Phase): nat {
    match at
    case FlagCheck => 8
    case Lookup => 7
    case StartLock => 6
    case Inspect => 5
    case LockedFlag => 4
    case Spawning => 3
    case Recording(_) => 2
    case Poll => 1
    case _ => 0
  }

  function StopLeft(at: Phase): nat {
    match at
    case StopLock => 4
    case StopInspect => 3
    case StopKill(_) => 2
    case StopForget => 1
    case StopRecorded => 1
    case _ => 0
  }

  function Left(th: Thread): nat {
    match th.job
    case Starter => if th.at.Entry? then 9 else StartLeft(th.at)
    case Closer => if th.at.Entry? then 5 else StopLeft(th.at)
    case Installer(_) =>
      if th.at.Entry? then 17 else if th.at.Cas? then 16 else if th.at.RunFlag? then 15
      else if StopPhase(th.at) then 10 + StopLeft(th.at) else if th.at.Payload? then 10
      else if th.at.Releasing? then 1 else if th.at.Finished? then 0 else 1 + StartLeft(th.at)
  }

  /** A phase on the way to success. */
  predicate OnTheWay(th: Thread) {
    match th.job
    case Starter => th.at.Entry? || StartLeft(th.at) > 0 || th.at == Finished(true)
    case Closer => th.at.Entry? || StopLeft(th.at) > 0 || th.at == Finished(true)
    case Installer(Stopping) => th.at.Entry? || th.at.Cas? || th.at.RunFlag? || StopLeft(th.at) > 0 || th.at.Payload?
    case Installer(First) => StartLeft(th.at) > 0 || th.at.Releasing? || th.at == Finished(true)
    case _ => false
  }

  predicate ServerUp(sh: Shared) { sh.child.Some? && sh.child.value in sh.alive }

  /** What has been achieved by then. */
  predicate Achieved(sh: Shared, th: Thread) {
    && (th.job == Closer ==> th.at.Entry? || sh.shuttingDown)
    && (th.job != Closer ==> !sh.shuttingDown)
    && (th.job.Installer? && !th.at.Finished? ==> sh.installRunning == !(th.at.Entry? || th.at.Cas?))
    && (th.job.Installer? && th.at.Finished? ==> !sh.installRunning)
    && (th.at.Recording? ==> th.at.pid in sh.alive)
    && (th.at.Poll? || th.at.Releasing? || (th.job != Closer && th.at.Finished?) ==> ServerUp(sh))
    && (th.at.StopRecorded? || th.at.Payload? || (th.job == Closer && th.at.Finished?) ==> sh.child == None)
  }

  predicate Alone(sh: Shared, t: nat, th: Thread) {
    OnTheWay(th) && Achieved(sh, th) && sh.lock == if Holds(th.at) then Some(t) else None
  }

  ghost predicate Advances(t: nat, th: Thread, n: Next) {
    Alone(n.sh, t, n.th) && Left(n.th) < Left(th)
    && (n.th.job == th.job || (th.job == Installer(Stopping) && n.th.job == Installer(First)))
  }

  lemma InstallAdvances(sh: Shared, t: nat, th: Thread)
    requires Alone(sh, t, th) && InstallPhase(th.at)
    ensures Advances(t, th, InstallStep(sh, th, Success(th.at)))
  {
    match th.at
    case Entry =>
    case Cas =>
    case RunFlag =>
    case Payload =>
    case Releasing =>
  }

  lemma StopAdvances(sh: Shared, t: nat, th: Thread)
    requires Alone(sh, t, th) && StopPhase(th.at)
    ensures Advances(t, th, StopStep(sh, t, th, Success(th.at)))
  {
    match th.at
    case StopLock =>
    case StopInspect =>
    case StopKill(_) =>
    case _ => StopEnds(sh, t, th);
  }

  lemma StopEnds(sh: Shared, t: nat, th: Thread)
    requires Alone(sh, t, th) && (th.at.StopForget? || th.at.StopRecorded?)
    ensures Advances(t, th, StopStep(sh, t, th, Success(th.at)))
  {
    match th.at
    case StopForget =>
    case StopRecorded =>
  }

  lemma StartAdvances(sh: Shared, t: nat, th: Thread)
    requires Alone(sh, t, th) && StartLeft(th.at) > 0
    ensures Advances(t, th, StartStep(sh, t, th, Success(th.at)))
  {
    if OpenStartPhase(th.at) {
      match th.at
      case FlagCheck =>
      case Lookup =>
      case StartLock =>
      case Poll =>
    } else {
      LockedStartAdvances(sh, t, th);
    }
  }

  lemma LockedStartAdvances(sh: Shared, t: nat, th: Thread)
    requires Alone(sh, t, th) && StartLeft(th.at) > 0 && LockedStartPhase(th.at)
    ensures Advances(t, th, LockedStartStep(sh, th, Success(th.at)))
  {
    match th.at
    case Inspect =>
    case LockedFlag =>
    case Spawning =>
    case Recording(_) =>
  }

  lemma AloneAdvances(s: State, t: nat)
    requires t in s.threads && Alone(s.sh, t, s.threads[t]) && !s.threads[t].at.Finished?
    ensures var th := s.threads[t]; var u := Step(s, Go(t, Success(th.at)));
            t in u.threads && Advances(t, th, Next(u.sh, u.threads[t]))
  {
    var th := s.threads[t];
    if InstallPhase(th.at) { InstallAdvances(s.sh, t, th); }
    else if StopPhase(th.at) { StopAdvances(s.sh, t, th); }
    else { StartAdvances(s.sh, t, th); }
  }

  /** The events of one thread. */
  predicate Only(events: seq<Event>, t: nat) {
    forall e | e in events :: e.Go? && e.thread == t
  }

  lemma {:induction false} AloneFinishes(s: State, t: nat) returns (events: seq<Event>)
    requires t in s.threads && Alone(s.sh, t, s.threads[t])
    ensures Only(events, t)
    ensures var u, job := Run(s, events), s.threads[t].job;
            && t in u.threads && u.threads[t].at == Finished(true) && Alone(u.sh, t, u.threads[t])
            && (u.threads[t].job == job || (job == Installer(Stopping) && u.threads[t].job == Installer(First)))
    decreases Left(s.threads[t])
  {
    if s.threads[t].at.Finished? {
      events := [];
    } else {
      var event := Go(t, Success(s.threads[t].at));
      AloneAdvances(s, t);
      var rest := AloneFinishes(Step(s, event), t);
      events := [event] + rest;
      assert events[1..] == rest;
    }
  }

  /** Nobody is in a critical section. */
  predicate Idle(s: State, t: nat, job: Job) {
    t in s.threads && s.threads[t] == Thread(job, Entry) && s.sh.lock == None
  }

  /** A start ends with the server running under its handle, the one that was running or a new one. */
  lemma StartAchieves(s: State, t: nat) returns (events: seq<Event>)
    requires Idle(s, t, Starter) && !s.sh.shuttingDown
    ensures Only(events, t)
    ensures var u := Run(s, events);
            t in u.threads && u.threads[t] == Thread(Starter, Finished(true)) && ServerUp(u.sh) && u.sh.lock == None
  {
    events := AloneFinishes(s, t);
  }

  /** So does an installation, with its flag down again. */
  lemma InstallAchieves(s: State, t: nat) returns (events: seq<Event>)
    requires Idle(s, t, Installer(Stopping)) && !s.sh.shuttingDown && !s.sh.installRunning
    ensures Only(events, t)
    ensures var u := Run(s, events);
            && t in u.threads && u.threads[t].job.Installer? && u.threads[t].at == Finished(true)
            && ServerUp(u.sh) && u.sh.lock == None && !u.sh.installRunning
  {
    events := AloneFinishes(s, t);
  }

  /** A shutdown ends with nothing running. */
  lemma ShutdownAchieves(s: State, t: nat) returns (events: seq<Event>)
    requires Inv(s) && Idle(s, t, Closer)
    ensures Only(events, t)
    ensures var u := Run(s, events);
            && t in u.threads && u.threads[t] == Thread(Closer, Finished(true))
            && u.sh.shuttingDown && u.sh.alive == {} && u.sh.child == None && u.sh.lock == None
  {
    events := AloneFinishes(s, t);
    RunKeepsInv(s, events);
    var u := Run(s, events);
    assert forall p :: p !in u.sh.alive;
  }

  // ---------------------------------------------------------------- a start that gives up

  predicate StopsAlone(sh: Shared, t: nat, th: Thread) {
    && StopPhase(th.at) && sh.lock == (if Holds(th.at) then Some(t) else None)
    && (th.at.StopRecorded? ==> sh.child == None)
  }

  lemma StopGoesOn(sh: Shared, t: nat, th: Thread)
    requires StopsAlone(sh, t, th)
    ensures var n := StopStep(sh, t, th, Success(th.at));
            || (n.th.job == th.job && StopsAlone(n.sh, t, n.th) && StopLeft(n.th.at) < StopLeft(th.at))
            || (n.th == Stopped(th.job, true, false) && n.sh.child == None && n.sh.lock == None)
  {
    match th.at
    case StopLock =>
    case StopInspect =>
    case StopKill(_) =>
    case StopForget =>
    case StopRecorded =>
  }

  lemma {:induction false} StopFinishes(s: State, t: nat) returns (events: seq<Event>)
    requires t in s.threads && s.threads[t].job == Starter && StopsAlone(s.sh, t, s.threads[t])
    ensures Only(events, t)
    ensures var u := Run(s, events);
            && t in u.threads && u.threads[t] == Thread(Starter, Finished(false))
            && u.sh.child == None && u.sh.lock == None
    decreases StopLeft(s.threads[t].at)
  {
    var event := Go(t, Success(s.threads[t].at));
    var u := Step(s, event);
    StopGoesOn(s.sh, t, s.threads[t]);
    if StopPhase(u.threads[t].at) {
      var rest := StopFinishes(u, t);
      events := [event] + rest;
      assert events[1..] == rest;
    } else {
      events := [event];
      assert events[1..] == [];
    }
  }

  /** A start whose server does not get healthy in time reports a failure, and leaves nothing running. */
  lemma GivingUpStops(s: State, t: nat, reply: Reply) returns (events: seq<Event>)
    requires Inv(s) && t in s.threads && s.threads[t] == Thread(Starter, Poll) && s.sh.lock == None
    requires !reply.ok && reply.fault
    ensures Only(events, t)
    ensures var u := Run(Step(s, Go(t, reply)), events);
            t in u.threads && u.threads[t] == Thread(Starter, Finished(false)) && u.sh.alive == {} && u.sh.lock == None
  {
    var m := Step(s, Go(t, reply));
    StepKeepsInv(s, Go(t, reply));
    events := StopFinishes(m, t);
    RunKeepsInv(m, events);
    assert forall p :: p !in Run(m, events).sh.alive;
  }
}
