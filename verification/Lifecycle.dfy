/** The process of the local server over the life of the desktop program: any number of concurrent
    starts, installations and shutdowns, one child mutex, one installation flag, one shutdown flag.
    A step is one atomic access or one critical section's next action; an event that cannot happen
    changes nothing, so every sequence of events is a run. */
module Lifecycle {
  import opened Wrappers

  /** How far an installation has got: stopping the old server, starting the new one, starting the
      old one after a failed installation, starting the old one after a failed start. */
  datatype Stage = Stopping | First | Fallback | Second

  datatype Job = Starter | Installer(stage: Stage) | Closer

  datatype Phase =
    | Entry | Cas | RunFlag | Payload | Releasing                            // of installations
    | FlagCheck | Lookup | StartLock | Inspect | LockedFlag | Spawning       // start_server
    | Recording(pid: nat) | Poll | PollLock | PollInspect
    | StopLock | StopInspect | StopKill(pid: nat) | StopForget | StopRecorded // stop_server
    | Finished(ok: bool)

  datatype Thread = Thread(job: Job, at: Phase)

  /** What all threads share. `child` is the handle in the mutex, `alive` what runs of all processes
      this manager ever spawned, numbered in the order of spawning. */
  datatype Shared = Shared(shuttingDown: bool, installRunning: bool, lock: Option<nat>, child: Option<nat>,
                           alive: set<nat>, spawned: nat)

  datatype State = State(sh: Shared, threads: map<nat, Thread>)

  /** What the world outside answers to a step: success, a failing system call, and the second
      question where there is one. */
  datatype Reply = Reply(ok: bool, fault: bool, again: bool)

  datatype Event = Begin(thread: nat, job: Job) | Go(thread: nat, reply: Reply) | Exits(pid: nat)

  const INIT := State(Shared(false, false, None, None, {}, 0), map[])

  // ---------------------------------------------------------------- one thread's steps

  /** Where a thread is next, and what it leaves for the others. */
  datatype Next = Next(sh: Shared, th: Thread)

  /** Takes the mutex if it is free, or waits. */
  function Enter(sh: Shared, t: nat, th: Thread, at: Phase): Next {
    if sh.lock == None then Next(sh.(lock := Some(t)), th.(at := at)) else Next(sh, th)
  }

  /** Where `start_server` returns to, with success or an error; after the first start of a new
      release has failed, `again` says whether the former one has been restored. */
  function Returned(job: Job, ok: bool, again: bool): Thread {
    match job
    case Installer(First) => if !ok && again then Thread(Installer(Second), FlagCheck) else Thread(job, Releasing)
    case Installer(_) => Thread(job, Releasing)
    case _ => Thread(job, Finished(ok))
  }

  /** Where `stop_server` returns to: inside a start, that was the end of a start that took too long. */
  function Stopped(job: Job, ok: bool, again: bool): Thread {
    match job
    case Closer => Thread(job, Finished(ok))
    case Installer(Stopping) => Thread(job, if ok then Payload else Releasing)
    case _ => Returned(job, false, again)
  }

  function InstallStep(sh: Shared, th: Thread, r: Reply): Next {
    match th.at
    case Entry =>
      if th.job == Closer then Next(sh.(shuttingDown := true), th.(at := StopLock))
      else if sh.shuttingDown then Next(sh, th.(at := Finished(false)))
      else Next(sh, th.(at := if th.job == Starter then FlagCheck else Cas))
    case Cas =>
      if sh.installRunning then Next(sh, th.(at := Finished(false)))
      else Next(sh.(installRunning := true), th.(at := RunFlag))
    case RunFlag => Next(sh, th.(at := if sh.shuttingDown || !r.ok then Releasing else StopLock))
    case Payload =>
      Next(sh, if r.ok then Thread(Installer(First), FlagCheck)
               else if r.again then Thread(Installer(Fallback), FlagCheck) else th.(at := Releasing))
    case Releasing => Next(sh.(installRunning := false), th.(at := Finished(r.ok)))
    case _ => Next(sh, th)
  }

  function StartStep(sh: Shared, t: nat, th: Thread, r: Reply): Next {
    match th.at
    case FlagCheck => Next(sh, if sh.shuttingDown then Returned(th.job, false, r.again) else th.(at := Lookup))
    case Lookup => // not installed, healthy already, or neither
      Next(sh, if r.fault || r.ok then Returned(th.job, !r.fault, r.again) else th.(at := StartLock))
    case StartLock => Enter(sh, t, th, Inspect)
    case Poll =>
      Next(sh, if r.ok then Returned(th.job, true, r.again) else th.(at := if r.fault then StopLock else PollLock))
    case PollLock => Enter(sh, t, th, PollInspect)
    case _ => LockedStartStep(sh, th, r)
  }

  /** Inside the two critical sections of `start_server`. */
  function LockedStartStep(sh: Shared, th: Thread, r: Reply): Next {
    var failed := Next(sh.(lock := None), Returned(th.job, false, r.again));
    match th.at
    case Inspect =>
      if sh.child == None then Next(sh, th.(at := LockedFlag))
      else if r.fault then failed
      else if sh.child.value in sh.alive then Next(sh.(lock := None), th.(at := Poll))
      else Next(sh.(child := None), th.(at := LockedFlag))
    case LockedFlag => if sh.shuttingDown then failed else Next(sh, th.(at := Spawning))
    case Spawning =>
      if r.fault then failed
      else Next(sh.(alive := sh.alive + {sh.spawned}, spawned := sh.spawned + 1), th.(at := Recording(sh.spawned)))
    case Recording(pid) => // the pid file is written, or the process killed and waited for
      if r.ok then Next(sh.(child := Some(pid), lock := None), th.(at := Poll))
      else Next(sh.(alive := sh.alive - {pid}, lock := None), Returned(th.job, false, r.again))
    case PollInspect =>
      if sh.child == None || r.fault || sh.child.value !in sh.alive then failed
      else Next(sh.(lock := None), th.(at := Poll))
    case _ => Next(sh, th)
  }

  function StopStep(sh: Shared, t: nat, th: Thread, r: Reply): Next {
    match th.at
    case StopLock => Enter(sh, t, th, StopInspect)
    case StopInspect =>
      if sh.child == None then Next(sh.(lock := None), th.(at := StopRecorded))
      else if r.fault then Next(sh.(lock := None), Stopped(th.job, false, r.again))
      else Next(sh, th.(at := if sh.child.value in sh.alive then StopKill(sh.child.value) else StopForget))
    case StopKill(pid) => // killed and waited for, or both ways of killing failed
      if r.ok then Next(sh.(alive := sh.alive - {pid}), th.(at := StopForget))
      else Next(sh.(lock := None), Stopped(th.job, false, r.again))
    case StopForget => Next(sh.(child := None, lock := None), Stopped(th.job, true, r.again))
    case StopRecorded => Next(sh, Stopped(th.job, r.ok, r.again))
    case _ => Next(sh, th)
  }

  predicate InstallPhase(at: Phase) {
    at.Entry? || at.Cas? || at.RunFlag? || at.Payload? || at.Releasing?
  }

  predicate StopPhase(at: Phase) {
    at.StopLock? || at.StopInspect? || at.StopKill? || at.StopForget? || at.StopRecorded?
  }

  predicate LockedStartPhase(at: Phase) {
    at.Inspect? || at.LockedFlag? || at.Spawning? || at.Recording? || at.PollInspect?
  }

  predicate OpenStartPhase(at: Phase) {
    at.FlagCheck? || at.Lookup? || at.StartLock? || at.Poll? || at.PollLock?
  }

  function Act(sh: Shared, t: nat, th: Thread, r: Reply): Next {
    if InstallPhase(th.at) then InstallStep(sh, th, r)
    else if StopPhase(th.at) then StopStep(sh, t, th, r)
    else StartStep(sh, t, th, r)
  }

  function Step(s: State, e: Event): State {
    match e
    case Begin(t, job) =>
      if t in s.threads || (job.Installer? && job.stage != Stopping) then s
      else State(s.sh, s.threads[t := Thread(job, Entry)])
    case Exits(pid) => State(s.sh.(alive := s.sh.alive - {pid}), s.threads)
    case Go(t, reply) =>
      if t !in s.threads then s
      else var n := Act(s.sh, t, s.threads[t], reply); State(n.sh, s.threads[t := n.th])
  }

  function Run(s: State, events: seq<Event>): State
    decreases |events|
  {
    if events == [] then s else Run(Step(s, events[0]), events[1..])
  }

  // ---------------------------------------------------------------- the invariant

  predicate Holds(at: Phase) {
    at.Inspect? || at.LockedFlag? || at.Spawning? || at.Recording? || at.PollInspect?
    || at.StopInspect? || at.StopKill? || at.StopForget?
  }

  /** `run_install` is running, or about to or just has. */
  predicate Installing(th: Thread) {
    th.job.Installer? && !th.at.Entry? && !th.at.Cas? && !th.at.Finished?
  }

  /** Each job stays in its own part of the program. */
  predicate InPart(th: Thread) {
    && (th.at.Cas? || th.at.RunFlag? || th.at.Payload? || th.at.Releasing? ==> th.job.Installer?)
    && (th.job.Installer? && (th.at.Entry? || th.at.Cas? || th.at.RunFlag?) ==> th.job.stage == Stopping)
    && (th.job == Closer ==> th.at.Entry? || StopPhase(th.at) || th.at.Finished?)
  }

  /** The mutex has one holder: the thread inside a critical section. */
  ghost predicate LockInv(s: State) {
    && (forall t | t in s.threads :: Holds(s.threads[t].at) <==> s.sh.lock == Some(t))
    && (s.sh.lock.Some? ==> s.sh.lock.value in s.threads)
  }

  /** At most this process is alive. */
  predicate OnlyAlive(sh: Shared, pid: Option<nat>) {
    forall p | p in sh.alive :: pid == Some(p)
  }

  /** What the holder may rely on, and everybody while there is none. */
  predicate ChildOk(sh: Shared, holder: Option<Phase>) {
    match holder
    case Some(Recording(pid)) => sh.child == None && OnlyAlive(sh, Some(pid))
    case Some(LockedFlag) => sh.child == None && OnlyAlive(sh, None)
    case Some(Spawning) => sh.child == None && OnlyAlive(sh, None)
    case Some(StopKill(pid)) => sh.child == Some(pid) && OnlyAlive(sh, Some(pid))
    case Some(StopForget) => OnlyAlive(sh, None)
    case _ => OnlyAlive(sh, sh.child)
  }

  function Holder(s: State): Option<Phase> {
    if s.sh.lock.Some? && s.sh.lock.value in s.threads then Some(s.threads[s.sh.lock.value].at) else None
  }

  ghost predicate InstallInv(s: State) {
    && (forall t | t in s.threads :: InPart(s.threads[t]) && (Installing(s.threads[t]) ==> s.sh.installRunning))
    && (forall t, u | t in s.threads && u in s.threads ::
          Installing(s.threads[t]) && Installing(s.threads[u]) ==> t == u)
  }

  /** A shutdown is past its flag once it has begun; when it has found the server stopped, nothing
      runs and nobody is about to spawn. */
  ghost predicate CloseInv(s: State) {
    forall t | t in s.threads && s.threads[t].job == Closer ::
      && (!s.threads[t].at.Entry? ==> s.sh.shuttingDown)
      && (s.threads[t].at == Finished(true) || s.threads[t].at.StopRecorded? ==> Closed(s))
  }

  ghost predicate Closed(s: State) {
    && s.sh.shuttingDown && OnlyAlive(s.sh, None)
    && (Holder(s).Some? ==> !Holder(s).value.Spawning? && !Holder(s).value.Recording?)
  }

  ghost predicate Inv(s: State) {
    LockInv(s) && ChildOk(s.sh, Holder(s)) && InstallInv(s) && CloseInv(s)
  }

  // ---------------------------------------------------------------- what one step does

  /** A thread keeps, takes or gives back the mutex. */
  predicate LockEffect(sh: Shared, t: nat, th: Thread, n: Next) {
    || (n.sh.lock == sh.lock && Holds(n.th.at) == Holds(th.at))
    || (sh.lock == None && n.sh.lock == Some(t) && !Holds(th.at) && Holds(n.th.at))
    || (Holds(th.at) && n.sh.lock == None && !Holds(n.th.at))
  }

  function HolderAfter(n: Next): Option<Phase> {
    if Holds(n.th.at) then Some(n.th.at) else None
  }

  /** Only the holder touches child and processes, and it leaves them in order. */
  predicate ChildEffect(sh: Shared, th: Thread, n: Next) {
    if Holds(th.at) then ChildOk(sh, Some(th.at)) ==> ChildOk(n.sh, HolderAfter(n))
    else
      && n.sh.child == sh.child && n.sh.alive == sh.alive && n.sh.spawned == sh.spawned
      && (Holds(n.th.at) ==> n.th.at.Inspect? || n.th.at.PollInspect? || n.th.at.StopInspect?)
  }

  /** The flag goes up with the first installing thread and down with it. */
  predicate InstallEffect(sh: Shared, th: Thread, n: Next) {
    && InPart(n.th)
    && (|| (n.sh.installRunning == sh.installRunning && (Installing(n.th) ==> Installing(th)))
        || (!sh.installRunning && n.sh.installRunning && Installing(n.th))
        || (Installing(th) && !n.sh.installRunning && !Installing(n.th)))
  }

  /** The shutdown flag never goes down, and is up before a shutdown goes on; after it is up nobody
      gets to the point of spawning; and a shutdown finds the server stopped only under the mutex. */
  predicate CloseEffect(sh: Shared, th: Thread, n: Next) {
    && (sh.shuttingDown ==> n.sh.shuttingDown)
    && (n.th.job == Closer <==> th.job == Closer)
    && (th.job == Closer && (th.at.Entry? || sh.shuttingDown) ==> n.th.at.Entry? || n.sh.shuttingDown)
    && (n.th.at.Spawning? ==> !sh.shuttingDown)
    && (n.th.at.Recording? || !(n.sh.alive <= sh.alive) || n.sh.spawned != sh.spawned ==> th.at.Spawning?)
    && (th.job == Closer && (n.th.at == Finished(true) || n.th.at.StopRecorded?) ==>
          th.at.StopRecorded? || n == Next(sh, th)
          || (Holds(th.at) && n.sh.lock == None && (ChildOk(sh, Some(th.at)) ==> OnlyAlive(n.sh, None))))
  }

  ghost predicate Effect(sh: Shared, t: nat, th: Thread, n: Next) {
    LockEffect(sh, t, th, n) && ChildEffect(sh, th, n) && InstallEffect(sh, th, n) && CloseEffect(sh, th, n)
  }

  /** Who returns from `start_server` or `stop_server` is out of every critical section. */
  lemma ReturnsOutside(job: Job, ok: bool, again: bool)
    ensures !Holds(Returned(job, ok, again).at) && !Holds(Stopped(job, ok, again).at)
  {
  }

  lemma InstallStepEffect(sh: Shared, t: nat, th: Thread, r: Reply)
    requires InPart(th) && InstallPhase(th.at)
    ensures Effect(sh, t, th, InstallStep(sh, th, r))
  {
    match th.at
    case Entry =>
    case Cas =>
    case RunFlag =>
    case Payload =>
    case Releasing =>
  }

  lemma StopStepLock(sh: Shared, t: nat, th: Thread, r: Reply)
    requires InPart(th) && StopPhase(th.at)
    ensures LockEffect(sh, t, th, StopStep(sh, t, th, r))
  {
  }

  lemma StopStepChild(sh: Shared, t: nat, th: Thread, r: Reply)
    requires InPart(th) && StopPhase(th.at)
    ensures ChildEffect(sh, th, StopStep(sh, t, th, r))
  {
    ReturnsOutside(th.job, false, r.again);
    ReturnsOutside(th.job, true, r.again);
    match th.at
    case StopLock =>
    case StopInspect =>
    case StopKill(_) =>
    case StopForget =>
    case StopRecorded =>
  }

  lemma StopStepInstall(sh: Shared, t: nat, th: Thread, r: Reply)
    requires InPart(th) && StopPhase(th.at)
    ensures InstallEffect(sh, th, StopStep(sh, t, th, r))
  {
  }

  lemma StopStepClose(sh: Shared, t: nat, th: Thread, r: Reply)
    requires InPart(th) && StopPhase(th.at)
    ensures CloseEffect(sh, th, StopStep(sh, t, th, r))
  {
    ReturnsOutside(th.job, false, r.again);
    ReturnsOutside(th.job, true, r.again);
    match th.at
    case StopLock =>
    case StopInspect =>
    case StopKill(_) =>
    case StopForget =>
    case StopRecorded =>
  }

  lemma LockedStepLock(sh: Shared, t: nat, th: Thread, r: Reply)
    requires InPart(th) && LockedStartPhase(th.at)
    ensures LockEffect(sh, t, th, LockedStartStep(sh, th, r))
  {
  }

  lemma LockedStepChild(sh: Shared, t: nat, th: Thread, r: Reply)
    requires InPart(th) && LockedStartPhase(th.at)
    ensures ChildEffect(sh, th, LockedStartStep(sh, th, r))
  {
    ReturnsOutside(th.job, false, r.again);
    ReturnsOutside(th.job, true, r.again);
    match th.at
    case Inspect =>
    case LockedFlag =>
    case Spawning =>
    case Recording(_) =>
    case PollInspect =>
  }

  lemma LockedStepInstall(sh: Shared, t: nat, th: Thread, r: Reply)
    requires InPart(th) && LockedStartPhase(th.at)
    ensures InstallEffect(sh, th, LockedStartStep(sh, th, r))
  {
  }

  lemma LockedStepClose(sh: Shared, t: nat, th: Thread, r: Reply)
    requires InPart(th) && LockedStartPhase(th.at)
    ensures CloseEffect(sh, th, LockedStartStep(sh, th, r))
  {
  }

  lemma OpenStepLock(sh: Shared, t: nat, th: Thread, r: Reply)
    requires InPart(th) && OpenStartPhase(th.at)
    ensures LockEffect(sh, t, th, StartStep(sh, t, th, r))
  {
  }

  lemma OpenStepChild(sh: Shared, t: nat, th: Thread, r: Reply)
    requires InPart(th) && OpenStartPhase(th.at)
    ensures ChildEffect(sh, th, StartStep(sh, t, th, r))
  {
    match th.at
    case FlagCheck =>
    case Lookup =>
    case StartLock =>
    case Poll =>
    case PollLock =>
  }

  lemma OpenStepInstall(sh: Shared, t: nat, th: Thread, r: Reply)
    requires InPart(th) && OpenStartPhase(th.at)
    ensures InstallEffect(sh, th, StartStep(sh, t, th, r))
  {
  }

  lemma OpenStepClose(sh: Shared, t: nat, th: Thread, r: Reply)
    requires InPart(th) && OpenStartPhase(th.at)
    ensures CloseEffect(sh, th, StartStep(sh, t, th, r))
  {
  }

  lemma ActEffect(sh: Shared, t: nat, th: Thread, r: Reply)
    requires InPart(th)
    ensures Effect(sh, t, th, Act(sh, t, th, r))
  {
    if InstallPhase(th.at) {
      InstallStepEffect(sh, t, th, r);
    } else if StopPhase(th.at) {
      StopStepLock(sh, t, th, r);
      StopStepChild(sh, t, th, r);
      StopStepInstall(sh, t, th, r);
      StopStepClose(sh, t, th, r);
    } else if LockedStartPhase(th.at) {
      LockedStepLock(sh, t, th, r);
      LockedStepChild(sh, t, th, r);
      LockedStepInstall(sh, t, th, r);
      LockedStepClose(sh, t, th, r);
    } else if OpenStartPhase(th.at) {
      OpenStepLock(sh, t, th, r);
      OpenStepChild(sh, t, th, r);
      OpenStepInstall(sh, t, th, r);
      OpenStepClose(sh, t, th, r);
    }
  }

  // ---------------------------------------------------------------- what every step keeps

  /** The state after thread `t` has got this far. */
  function Moved(s: State, t: nat, n: Next): State { State(n.sh, s.threads[t := n.th]) }

  lemma LockKept(s: State, t: nat, n: Next)
    requires LockInv(s) && t in s.threads && LockEffect(s.sh, t, s.threads[t], n)
    ensures LockInv(Moved(s, t, n))
    ensures Holder(Moved(s, t, n))
         == if Holds(n.th.at) then Some(n.th.at) else if Holds(s.threads[t].at) then None else Holder(s)
  {
  }

  lemma ChildKept(s: State, t: nat, n: Next)
    requires LockInv(s) && ChildOk(s.sh, Holder(s)) && t in s.threads
    requires LockEffect(s.sh, t, s.threads[t], n) && ChildEffect(s.sh, s.threads[t], n)
    ensures ChildOk(n.sh, Holder(Moved(s, t, n)))
  {
  }

  lemma InstallKept(s: State, t: nat, n: Next)
    requires InstallInv(s) && t in s.threads && InstallEffect(s.sh, s.threads[t], n)
    ensures InstallInv(Moved(s, t, n))
  {
  }

  lemma CloseKept(s: State, t: nat, n: Next)
    requires Inv(s) && t in s.threads && Effect(s.sh, t, s.threads[t], n)
    ensures CloseInv(Moved(s, t, n)) && (Closed(s) ==> Closed(Moved(s, t, n)) && n.sh.spawned == s.sh.spawned)
  {
  }

  lemma StepKeepsInv(s: State, e: Event)
    requires Inv(s)
    ensures Inv(Step(s, e))
    ensures Closed(s) ==> Closed(Step(s, e)) && Step(s, e).sh.spawned == s.sh.spawned
  {
    match e
    case Begin(t, job) =>
    case Exits(pid) =>
    case Go(t, reply) =>
      if t in s.threads {
        var n := Act(s.sh, t, s.threads[t], reply);
        ActEffect(s.sh, t, s.threads[t], reply);
        LockKept(s, t, n);
        ChildKept(s, t, n);
        InstallKept(s, t, n);
        CloseKept(s, t, n);
      }
  }

  lemma {:induction false} RunKeepsInv(s: State, events: seq<Event>)
    requires Inv(s)
    ensures Inv(Run(s, events))
    ensures Closed(s) ==> Closed(Run(s, events)) && Run(s, events).sh.spawned == s.sh.spawned
    decreases |events|
  {
    if events != [] {
      StepKeepsInv(s, events[0]);
      RunKeepsInv(Step(s, events[0]), events[1..]);
    }
  }

  // ---------------------------------------------------------------- the guarantees

  /** Whatever runs concurrently: at most one process of this manager is alive ... */
  lemma AtMostOneChild(events: seq<Event>, p: nat, q: nat)
    requires var s := Run(INIT, events); p in s.sh.alive && q in s.sh.alive
    ensures p == q
  {
    RunKeepsInv(INIT, events);
  }

  /** ... at most one installation is running ... */
  lemma AtMostOneInstall(events: seq<Event>, t: nat, u: nat)
    requires var s := Run(INIT, events);
             t in s.threads && u in s.threads && Installing(s.threads[t]) && Installing(s.threads[u])
    ensures t == u
  {
    RunKeepsInv(INIT, events);
  }

  /** ... and after a shutdown that succeeded no process is alive, and none is ever spawned again. */
  lemma ShutdownIsFinal(events: seq<Event>, later: seq<Event>, t: nat)
    requires var s := Run(INIT, events); t in s.threads && s.threads[t] == Thread(Closer, Finished(true))
    ensures var u := Run(Run(INIT, events), later);
            u.sh.alive == {} && u.sh.spawned == Run(INIT, events).sh.spawned
  {
    RunKeepsInv(INIT, events);
    RunKeepsInv(Run(INIT, events), later);
    var u := Run(Run(INIT, events), later);
    assert forall p :: p !in u.sh.alive;
  }
}
