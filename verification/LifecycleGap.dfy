/** Who can run a server while an installation has stopped it to work on its data: only a start from
    elsewhere, and any such start that is under way can. */
module LifecycleGap {
  import opened Wrappers
  import opened Lifecycle

  // ---------------------------------------------------------------- who it was

  /** The installation has found the server stopped and has not started one itself. */
  predicate Waiting(th: Thread) {
    th.job == Installer(Stopping) && (th.at.StopRecorded? || th.at.Payload?)
  }

  /** In the state before event `i` thread `u` is a start from elsewhere, about to spawn `pid`, while
      installation `t` is already waiting; and the event is its step. */
  ghost predicate SpawnedMeanwhile(events: seq<Event>, i: nat, u: nat, t: nat, pid: nat) {
    && i < |events| && events[i].Go? && events[i].thread == u
    && var s := Run(INIT, events[..i]);
       && u in s.threads && s.threads[u] == Thread(Starter, Spawning) && s.sh.spawned == pid
       && t in s.threads && Waiting(s.threads[t])
  }

  lemma {:induction false} RunAppend(s: State, a: seq<Event>, b: seq<Event>)
    ensures Run(s, a + b) == Run(Run(s, a), b)
    decreases |a|
  {
    if a == [] {
      assert a + b == b;
    } else {
      assert (a + b)[1..] == a[1..] + b;
      RunAppend(Step(s, a[0]), a[1..], b);
    }
  }

  lemma LastStep(s: State, events: seq<Event>)
    requires events != []
    ensures Run(s, events) == Step(Run(s, events[..|events| - 1]), events[|events| - 1])
  {
    var n := |events| - 1;
    assert events == events[..n] + [events[n]];
    RunAppend(s, events[..n], [events[n]]);
    assert [events[n]][1..] == [];
  }

  /** A step that brings a process to life is the step of a thread at its spawning. */
  lemma BirthStep(s: State, e: Event, p: nat)
    requires Inv(s) && p in Step(s, e).sh.alive && p !in s.sh.alive
    ensures e.Go? && e.thread in s.threads && s.threads[e.thread].at.Spawning? && p == s.sh.spawned
  {
    if e.Go? && e.thread in s.threads { ActEffect(s.sh, e.thread, s.threads[e.thread], e.reply); }
  }

  /** A thread that begins to wait held the mutex, and leaves nothing alive. */
  lemma WaitBegins(sh: Shared, t: nat, th: Thread, r: Reply)
    requires InPart(th) && !Waiting(th) && Waiting(Act(sh, t, th, r).th)
    ensures Holds(th.at) && (ChildOk(sh, Some(th.at)) ==> OnlyAlive(Act(sh, t, th, r).sh, None))
  {
    assert th.at.StopInspect? || th.at.StopForget?;
  }

  lemma WaitBeginsQuiet(s: State, e: Event, t: nat)
    requires Inv(s) && t in Step(s, e).threads && Waiting(Step(s, e).threads[t])
    requires t in s.threads ==> !Waiting(s.threads[t])
    ensures OnlyAlive(Step(s, e).sh, None)
  {
    if e.Go? && e.thread == t && t in s.threads {
      WaitBegins(s.sh, t, s.threads[t], e.reply);
      assert Holder(s) == Some(s.threads[t].at);
    }
  }

  /** While an installation waits, nobody but a start from elsewhere gets to spawn. */
  lemma OnlyStartsSpawn(s: State, t: nat, u: nat)
    requires Inv(s) && t in s.threads && Waiting(s.threads[t]) && u in s.threads && s.threads[u].at.Spawning?
    ensures s.threads[u] == Thread(Starter, Spawning)
  {
    assert InPart(s.threads[u]);
    if s.threads[u].job.Installer? { assert Installing(s.threads[u]) && Installing(s.threads[t]); }
  }

  /** Over every run: what is alive while an installation waits was spawned by a start from elsewhere,
      and while the installation was waiting. */
  lemma {:induction false} AliveWasSpawnedMeanwhile(events: seq<Event>, t: nat, p: nat)
    requires var s := Run(INIT, events); t in s.threads && Waiting(s.threads[t]) && p in s.sh.alive
    ensures exists i: nat, u: nat :: SpawnedMeanwhile(events, i, u, t, p)
    decreases |events|
  {
    if events != [] {
      var n := |events| - 1;
      var before, e := Run(INIT, events[..n]), events[n];
      LastStep(INIT, events);
      RunKeepsInv(INIT, events[..n]);
      if !(t in before.threads && Waiting(before.threads[t])) {
        WaitBeginsQuiet(before, e, t);
      } else if p in before.sh.alive {
        AliveWasSpawnedMeanwhile(events[..n], t, p);
        var i: nat, u: nat :| SpawnedMeanwhile(events[..n], i, u, t, p);
        assert events[..n][..i] == events[..i];
        assert SpawnedMeanwhile(events, i, u, t, p);
      } else {
        BirthStep(before, e, p);
        OnlyStartsSpawn(before, t, e.thread);
        assert SpawnedMeanwhile(events, n, e.thread, t, p);
      }
    }
  }

  /** No start is begun from elsewhere. */
  predicate NoStarts(events: seq<Event>) {
    forall i | 0 <= i < |events| :: events[i].Begin? ==> events[i].job != Starter
  }

  lemma StarterBegins(s: State, e: Event, u: nat)
    requires u in Step(s, e).threads && Step(s, e).threads[u].job == Starter
    ensures e == Begin(u, Starter) || (u in s.threads && s.threads[u].job == Starter)
  {
  }

  lemma {:induction false} NoStarters(events: seq<Event>, u: nat)
    requires NoStarts(events)
    ensures var s := Run(INIT, events); u in s.threads ==> s.threads[u].job != Starter
    decreases |events|
  {
    if events != [] {
      var n := |events| - 1;
      LastStep(INIT, events);
      NoStarters(events[..n], u);
      var t := Run(INIT, events);
      if u in t.threads && t.threads[u].job == Starter { StarterBegins(Run(INIT, events[..n]), events[n], u); }
    }
  }

  /** So without starts from elsewhere no server runs while an installation works on its data. */
  lemma QuietWithoutStarts(events: seq<Event>, t: nat)
    requires var s := Run(INIT, events); t in s.threads && Waiting(s.threads[t])
    requires NoStarts(events)
    ensures Run(INIT, events).sh.alive == {}
  {
    var s := Run(INIT, events);
    forall p: nat ensures p !in s.sh.alive {
      if p in s.sh.alive {
        AliveWasSpawnedMeanwhile(events, t, p);
        var i: nat, u: nat :| SpawnedMeanwhile(events, i, u, t, p);
        NoStarters(events[..i], u);
      }
    }
  }

  // ---------------------------------------------------------------- and that any of them can

  const NAY := Reply(false, true, false)     // every call fails
  const NO := Reply(false, false, false)     // not healthy yet, nothing fails
  const YES := Reply(true, false, false)

  /** Some continuation spawns a server while `t` stays where it is. */
  ghost predicate CanSpawn(s: State, t: nat) {
    exists events :: SpawnsBeside(s, events, t)
  }

  ghost predicate SpawnsBeside(s: State, events: seq<Event>, t: nat) {
    var u := Run(s, events);
    && t in s.threads && t in u.threads && u.threads[t] == s.threads[t]
    && u.sh.spawned > s.sh.spawned && u.sh.spawned - 1 in u.sh.alive
  }

  lemma FirstStep(s: State, e: Event, rest: seq<Event>)
    ensures Run(s, [e] + rest) == Run(Step(s, e), rest)
  {
    assert ([e] + rest)[1..] == rest;
  }

  lemma SpawnsLater(s: State, e: Event, t: nat)
    requires t in s.threads && t in Step(s, e).threads && Step(s, e).threads[t] == s.threads[t]
    requires s.sh.spawned <= Step(s, e).sh.spawned && CanSpawn(Step(s, e), t)
    ensures CanSpawn(s, t)
  {
    var rest :| SpawnsBeside(Step(s, e), rest, t);
    FirstStep(s, e, rest);
    assert SpawnsBeside(s, [e] + rest, t);
  }

  /** How far a start is from spawning, and a holder of the mutex from giving it back. */
  function Distance(at: Phase): nat {
    match at
    case Entry => 7
    case FlagCheck => 6
    case Lookup => 5
    case StartLock => 4
    case Inspect => 3
    case LockedFlag => 2
    case Spawning => 1
    case _ => 0
  }

  /** What moves the start on, or out of its way what is in it. */
  function Onwards(s: State, u: nat): Event
    requires u in s.threads
  {
    var at := s.threads[u].at;
    if at.StartLock? && s.sh.lock.Some? then Go(s.sh.lock.value, NAY)
    else if at.Inspect? && s.sh.child.Some? && s.sh.child.value in s.sh.alive then Exits(s.sh.child.value)
    else Go(u, NO)
  }

  function InTheWay(s: State): nat {
    (if s.sh.lock.Some? && s.sh.lock.value in s.threads then 1 + Distance(s.threads[s.sh.lock.value].at) else 0)
    + if s.sh.child.Some? && s.sh.child.value in s.sh.alive then 1 else 0
  }

  /** A start that has not got as far as spawning. */
  predicate UnderWay(th: Thread) {
    th.job == Starter && Distance(th.at) > 0
  }

  /** A holder gives the mutex back, or gets closer to that, when everything fails. */
  lemma HolderYields(sh: Shared, t: nat, th: Thread)
    requires Holds(th.at) && InPart(th) && sh.lock == Some(t)
    ensures var n := Act(sh, t, th, NAY);
            && n.sh.shuttingDown == sh.shuttingDown && n.sh.spawned == sh.spawned && n.sh.alive <= sh.alive
            && (n.sh.lock == None || (n.sh.lock == sh.lock && Distance(n.th.at) < Distance(th.at)))
            && (n.sh.child == sh.child || n.sh.lock == None)
  {
  }

  /** An undisturbed start with no child in its way gets one step closer to spawning. */
  lemma StarterAdvances(sh: Shared, t: nat, th: Thread)
    requires th.job == Starter && Distance(th.at) > 1 && !sh.shuttingDown
    requires th.at.StartLock? ==> sh.lock == None
    requires th.at.Inspect? && sh.child.Some? ==> sh.child.value !in sh.alive
    ensures var n := Act(sh, t, th, NO);
            && n.sh.shuttingDown == sh.shuttingDown && n.sh.spawned == sh.spawned
            && n.th.job == Starter && Distance(n.th.at) == Distance(th.at) - 1
  {
  }

  lemma OnwardsProgress(s: State, t: nat, u: nat)
    requires Inv(s) && t in s.threads && Waiting(s.threads[t]) && u in s.threads && UnderWay(s.threads[u])
    requires !s.sh.shuttingDown && !s.threads[u].at.Spawning?
    ensures var n := Step(s, Onwards(s, u));
            && t in n.threads && n.threads[t] == s.threads[t] && u in n.threads && UnderWay(n.threads[u])
            && !n.sh.shuttingDown && n.sh.spawned == s.sh.spawned
            && (Distance(n.threads[u].at) < Distance(s.threads[u].at)
                || (n.threads[u] == s.threads[u] && InTheWay(n) < InTheWay(s)))
  {
    var at := s.threads[u].at;
    if at.StartLock? && s.sh.lock.Some? {
      var h := s.sh.lock.value;
      assert Holds(s.threads[h].at) && InPart(s.threads[h]);
      HolderYields(s.sh, h, s.threads[h]);
    } else if !(at.Inspect? && s.sh.child.Some? && s.sh.child.value in s.sh.alive) {
      StarterAdvances(s.sh, u, s.threads[u]);
    }
  }

  /** From every such state, reachable or not: a start that is under way can still run a server beside
      the waiting installation as long as no shutdown has begun - or even then, once it is past its
      own last look at the flag. */
  lemma {:induction false} AnyStartCanSpawn(s: State, t: nat, u: nat)
    requires Inv(s) && t in s.threads && Waiting(s.threads[t]) && u in s.threads && UnderWay(s.threads[u])
    requires s.sh.shuttingDown ==> s.threads[u].at.Spawning?
    ensures CanSpawn(s, t)
    decreases Distance(s.threads[u].at), InTheWay(s)
  {
    var e := Onwards(s, u);
    if s.threads[u].at.Spawning? {
      FirstStep(s, e, []);
      assert SpawnsBeside(s, [e] + [], t);
    } else {
      OnwardsProgress(s, t, u);
      StepKeepsInv(s, e);
      AnyStartCanSpawn(Step(s, e), t, u);
      SpawnsLater(s, e, t);
    }
  }

  // ---------------------------------------------------------------- exactly when

  /** Nobody can spawn any more: a shutdown has begun, and no start is past its last look at the flag. */
  ghost predicate NoMoreSpawns(s: State) {
    s.sh.shuttingDown && forall u | u in s.threads :: !s.threads[u].at.Spawning?
  }

  lemma {:induction false} SpawnsNoMore(s: State, events: seq<Event>)
    requires Inv(s) && NoMoreSpawns(s)
    ensures Run(s, events).sh.spawned == s.sh.spawned
    decreases |events|
  {
    if events != [] {
      var e := events[0];
      if e.Go? && e.thread in s.threads { ActEffect(s.sh, e.thread, s.threads[e.thread], e.reply); }
      StepKeepsInv(s, e);
      SpawnsNoMore(Step(s, e), events[1..]);
    }
  }

  lemma {:induction false} FreshThread(ids: set<nat>) returns (u: nat)
    ensures forall i | i in ids :: i < u
    decreases |ids|
  {
    u := 0;
    if ids != {} {
      var i :| i in ids;
      var rest := FreshThread(ids - {i});
      u := if rest <= i then i + 1 else rest;
      forall j | j in ids ensures j < u {
        if j != i { assert j in ids - {i}; }
      }
    }
  }

  /** In any state a run can reach with an installation waiting: some continuation runs a server beside
      it exactly if no shutdown has begun, or a start is past its last look at the flag. */
  lemma ServerCanRunIff(events: seq<Event>, t: nat)
    requires var s := Run(INIT, events); t in s.threads && Waiting(s.threads[t])
    ensures var s := Run(INIT, events);
            CanSpawn(s, t) <==> !s.sh.shuttingDown || exists u :: u in s.threads && s.threads[u].at.Spawning?
  {
    var s := Run(INIT, events);
    RunKeepsInv(INIT, events);
    if NoMoreSpawns(s) {
      forall later ensures !SpawnsBeside(s, later, t) { SpawnsNoMore(s, later); }
    } else if u :| u in s.threads && s.threads[u].at.Spawning? {
      OnlyStartsSpawn(s, t, u);
      AnyStartCanSpawn(s, t, u);
    } else {
      var u := FreshThread(s.threads.Keys);
      var e := Begin(u, Starter);
      StepKeepsInv(s, e);
      AnyStartCanSpawn(Step(s, e), t, u);
      SpawnsLater(s, e, t);
    }
  }

  // ---------------------------------------------------------------- a run in which it happens

  lemma InstallerStops(s: State, t: nat)
    requires s.sh == INIT.sh && t in s.threads && s.threads[t] == Thread(Installer(Stopping), Entry)
    ensures Run(s, [Go(t, YES), Go(t, YES), Go(t, YES), Go(t, YES), Go(t, YES), Go(t, YES)])
         == State(INIT.sh.(installRunning := true), s.threads[t := Thread(Installer(Stopping), Payload)])
  {
    var g := Go(t, YES);
    var s1 := Step(s, g);
    var s2 := Step(s1, g);
    var s3 := Step(s2, g);
    var s4 := Step(s3, g);
    var s5 := Step(s4, g);
    var s6 := Step(s5, g);
    assert s6 == State(INIT.sh.(installRunning := true), s.threads[t := Thread(Installer(Stopping), Payload)]);
    FirstStep(s, g, [g, g, g, g, g]);
    FirstStep(s1, g, [g, g, g, g]);
    FirstStep(s2, g, [g, g, g]);
    FirstStep(s3, g, [g, g]);
    FirstStep(s4, g, [g]);
    FirstStep(s5, g, []);
  }

  /** A run after which the installation is at its payload and a server has been spawned all the same. */
  lemma ServerRunsDuringInstall() returns (events: seq<Event>)
    ensures var s := Run(INIT, events);
            0 in s.threads && s.threads[0] == Thread(Installer(Stopping), Payload) && s.sh.alive != {}
  {
    var b, g := Begin(0, Installer(Stopping)), Go(0, YES);
    var install := [b] + [g, g, g, g, g, g];
    FirstStep(INIT, b, [g, g, g, g, g, g]);
    InstallerStops(Step(INIT, b), 0);
    var s := Run(INIT, install);
    ServerCanRunIff(install, 0);
    var later :| SpawnsBeside(s, later, 0);
    RunAppend(INIT, install, later);
    events := install + later;
  }
}
