/** The one gap in the proxy's final check: `matches` and `is_active` are separate reads of the
    counter, so a whole login can go by between them. What decides, over every run, is whether such
    a login has stored the marker by the time the request reads it. */
module DesktopSessionGap {
  import opened Wrappers
  import opened DesktopSession
  import opened DesktopSessionProgress

  // ---------------------------------------------------------------- when a request leaves its epoch

  /** The state before the event with this index. */
  ghost function Before(start: State, events: seq<Event>, i: nat): State
    requires i <= |events|
  {
    Run(start, events[..i])
  }

  /** Event `i` is the login of epoch `x` storing the active marker. */
  ghost predicate Activates(start: State, events: seq<Event>, i: nat, x: nat) {
    && i < |events| && events[i].OwnerMoves? && events[i].epoch == x
    && x in Before(start, events, i).owners && Before(start, events, i).owners[x].pc.StoreActive?
  }

  /** Event `r` is the request's last read of the marker. */
  ghost predicate ReadsMarker(start: State, events: seq<Event>, r: nat, id: nat) {
    && r < |events| && events[r].RequestMoves? && events[r].id == id
    && id in Before(start, events, r).requests && Before(start, events, r).requests[id].FinalActive?
  }

  /** A login with a later epoch has stored the marker before the request reads it. */
  ghost predicate Overtaken(start: State, events: seq<Event>, id: nat, e: nat) {
    exists i: nat, r: nat, x: nat ::
      i < r && x > e && Activates(start, events, i, x) && ReadsMarker(start, events, r, id)
  }

  ghost predicate Startup(start: State) {
    exists hybrid, loaded, stored, leftover :: start == Start(hybrid, loaded, stored, leftover)
  }

  lemma StartupRuns(start: State, events: seq<Event>)
    requires Startup(start)
    ensures Inv(Run(start, events)) && start.active == 0 && start.requests == map[]
  {
    var hybrid, loaded, stored, leftover :| start == Start(hybrid, loaded, stored, leftover);
    StartKeepsInv(hybrid, loaded, stored, leftover);
    RunKeepsInv(start, events);
  }

  lemma LastStep(start: State, events: seq<Event>)
    requires events != []
    ensures Run(start, events) == Step(Run(start, events[..|events| - 1]), events[|events| - 1])
  {
    var n := |events| - 1;
    assert events == events[..n] + [events[n]];
    RunAppend(start, events[..n], [events[n]]);
    RunOne(Run(start, events[..n]), events[n]);
  }

  /** An event does not touch the marker, unless it is a login's store. */
  predicate MarkerStep(s: State, event: Event, t: State) {
    t.active == s.active
    || (event.OwnerMoves? && event.epoch in s.owners && s.owners[event.epoch].pc.StoreActive?
        && t.active == event.epoch)
  }

  /** Nor a request, unless it is the request's own step. */
  predicate RequestStep(s: State, event: Event, t: State, id: nat) {
    if id !in s.requests then id !in t.requests || t.requests[id] == ReadEpoch
    else if event.RequestMoves? && event.id == id then
      id in t.requests && t.requests[id] == Proxy(s, s.requests[id], event.reply)
    else id in t.requests && t.requests[id] == s.requests[id]
  }

  lemma StepEffects(s: State, event: Event, id: nat)
    requires Inv(s)
    ensures MarkerStep(s, event, Step(s, event)) && RequestStep(s, event, Step(s, event), id)
  {
    match event
    case OwnerMoves(e, reply) =>
      if e in s.owners {
        assert OwnerOk(s, e, s.owners[e]);
        StepOwnerStepped(s, e, reply);
      }
    case LoopMoves(e, reply) =>
      if e in s.loops {
        assert LoopOk(s, e, s.loops[e]);
        StepLoopStepped(s, e, reply);
      }
    case _ =>
  }

  lemma LastEffects(start: State, events: seq<Event>, id: nat)
    requires Startup(start) && events != []
    ensures var n := |events| - 1; var s, t := Before(start, events, n), Run(start, events);
            MarkerStep(s, events[n], t) && RequestStep(s, events[n], t, id)
  {
    var n := |events| - 1;
    StartupRuns(start, events[..n]);
    StepEffects(Run(start, events[..n]), events[n], id);
    LastStep(start, events);
  }

  lemma PrefixFacts(start: State, events: seq<Event>, n: nat, i: nat, k: nat)
    requires n <= |events|
    ensures Activates(start, events[..n], i, k) <==> i < n && Activates(start, events, i, k)
    ensures ReadsMarker(start, events[..n], i, k) <==> i < n && ReadsMarker(start, events, i, k)
  {
    if i < n { assert events[..n][..i] == events[..i]; }
  }

  /** A set marker has been stored by the login of that epoch ... */
  lemma {:induction false} MarkerHasStore(start: State, events: seq<Event>)
    requires Startup(start)
    ensures var x := Run(start, events).active; x > 0 ==> exists i: nat :: Activates(start, events, i, x)
    decreases |events|
  {
    StartupRuns(start, []);
    var x := Run(start, events).active;
    if events != [] && x > 0 {
      var n := |events| - 1;
      LastEffects(start, events, 0);
      if x == Before(start, events, n).active {
        MarkerHasStore(start, events[..n]);
        var i: nat :| Activates(start, events[..n], i, x);
        PrefixFacts(start, events, n, i, x);
      } else {
        assert Activates(start, events, n, x);
      }
    }
  }

  /** ... and what has been stored is not taken back. */
  lemma {:induction false} StoreRaisesMarker(start: State, events: seq<Event>, i: nat, x: nat)
    requires Startup(start) && Activates(start, events, i, x)
    ensures Run(start, events).active >= x
    decreases |events|
  {
    var n := |events| - 1;
    LastStep(start, events);
    if i < n {
      PrefixFacts(start, events, n, i, x);
      StoreRaisesMarker(start, events[..n], i, x);
      StartupRuns(start, events[..n]);
      StepGrows(Run(start, events[..n]), events[n]);
    }
  }

  /** The request has read the marker for the last time, and `seen` is what it read. */
  predicate HasSeen(pc: RequestPc, seen: nat) {
    pc.Refused? || ((pc.FinalCompare? || pc.Forwarded?) && pc.seen == seen)
  }

  lemma {:induction false} ReadIsKept(start: State, events: seq<Event>, r: nat, id: nat)
    requires Startup(start) && ReadsMarker(start, events, r, id)
    ensures var s := Run(start, events); id in s.requests && HasSeen(s.requests[id], Before(start, events, r).active)
    decreases |events|
  {
    var n := |events| - 1;
    LastEffects(start, events, id);
    if r < n {
      PrefixFacts(start, events, n, r, id);
      assert events[..n][..r] == events[..r];
      ReadIsKept(start, events[..n], r, id);
    }
  }

  lemma {:induction false} ForwardedHasRead(start: State, events: seq<Event>, id: nat)
    requires Startup(start)
    requires var s := Run(start, events);
             id in s.requests && (s.requests[id].FinalCompare? || s.requests[id].Forwarded?)
    ensures exists r: nat :: ReadsMarker(start, events, r, id)
    decreases |events|
  {
    StartupRuns(start, []);
    if events != [] {
      var n := |events| - 1;
      var before := Before(start, events, n);
      LastEffects(start, events, id);
      if before.requests[id].FinalActive? {
        assert ReadsMarker(start, events, n, id);
      } else {
        ForwardedHasRead(start, events[..n], id);
        var r: nat :| ReadsMarker(start, events[..n], r, id);
        PrefixFacts(start, events, n, r, id);
      }
    }
  }

  /** A forwarded request saw the marker beyond its own epoch exactly if it was overtaken. */
  lemma SeenIffOvertaken(start: State, events: seq<Event>, id: nat, e: nat)
    requires Startup(start)
    requires var s := Run(start, events); id in s.requests && s.requests[id].Forwarded?
    ensures Run(start, events).requests[id].seen > e <==> Overtaken(start, events, id, e)
  {
    ForwardedHasRead(start, events, id);
    var r: nat :| ReadsMarker(start, events, r, id);
    ReadIsKept(start, events, r, id);
    var seen := Run(start, events).requests[id].seen;
    if seen > e {
      MarkerHasStore(start, events[..r]);
      var i: nat :| Activates(start, events[..r], i, seen);
      PrefixFacts(start, events, r, i, seen);
    }
    if Overtaken(start, events, id, e) {
      var i: nat, r': nat, x: nat :|
        i < r' && x > e && Activates(start, events, i, x) && ReadsMarker(start, events, r', id);
      ReadIsKept(start, events, r', id);
      PrefixFacts(start, events, r', i, x);
      StoreRaisesMarker(start, events[..r'], i, x);
    }
  }

  /** Over every run: a request is forwarded with the counter still at its own epoch exactly when no
      later login had stored the marker before the request read it for the last time. Otherwise it
      is forwarded in the epoch of such a login, which has redeemed its ticket and is past its
      activation. */
  lemma ForwardedOutsideItsEpoch(hybrid: bool, loaded: Option<string>, stored: Option<string>,
                                 leftover: Option<string>, events: seq<Event>, id: nat)
    requires var s := Run(Start(hybrid, loaded, stored, leftover), events);
             id in s.requests && s.requests[id].Forwarded?
    ensures var start := Start(hybrid, loaded, stored, leftover);
            var s := Run(start, events);
            var r := s.requests[id];
            && (r.end == r.e <==> !Overtaken(start, events, id, r.e))
            && r.e <= r.end == r.seen
            && (r.end > r.e ==> r.end in s.owners && s.owners[r.end].kind == Login && r.end in s.redeemed
                                && PastActivation(s.owners[r.end].pc))
  {
    var start := Start(hybrid, loaded, stored, leftover);
    var s := Run(start, events);
    assert Startup(start);
    StartupRuns(start, events);
    assert RequestOk(s, s.requests[id]);
    SeenIffOvertaken(start, events, id, s.requests[id].e);
  }

  // ---------------------------------------------------------------- and it happens

  function OwnerAt(s: State, e: nat): State {
    s.(owners := s.owners[e := Owner(Login, WaitCleanup)])
  }

  /** A run in which the gap is hit: the request passes its last `matches` in epoch 0, a whole
      login goes by, and the request is forwarded although the counter stands at 1. */
  lemma ForwardedAfterAnotherLogin() returns (events: seq<Event>)
    ensures var s := Run(Start(false, None, None, None), events);
            0 in s.requests && s.requests[0] == Forwarded(0, 0, 0, 1, 1) && s.value == 1
  {
    var s0 := Start(false, None, None, None);
    var e1 := [RequestArrives(0)] + Repeat(RequestMoves(0, Success("")), 8);
    var s1 := At(s0, 0, FinalActive(0, 0, 0));
    RequestAloneArrives(s0, 0);
    RunAppend(s0, e1, [StartLogin]);
    RunOne(s1, StartLogin);
    var d := s1.(value := 1);
    assert Step(s1, StartLogin) == OwnerAt(d, 1);
    var e2 := Repeat(OwnerMoves(1, Success("token")), StepsLeft(WaitCleanup, false));
    LoginAchieves(OwnerAt(d, 1), 1, "token");
    var s2 := Run(OwnerAt(d, 1), e2);
    RunAppend(s0, e1 + [StartLogin], e2);
    var e3 := Repeat(RequestMoves(0, Success("")), 2);
    RequestAloneEnds(s2, 0, 0);
    RunAppend(s0, e1 + [StartLogin] + e2, e3);
    events := e1 + [StartLogin] + e2 + e3;
  }

  // ---------------------------------------------------------------- a logout that cannot wipe the store

  const NO := Reply(None, false, false)

  function LogoutAt(s: State, e: nat, pc: OwnerPc): State {
    s.(owners := s.owners[e := Owner(Logout, pc)])
  }

  lemma LogoutMoves(s: State, e: nat, pc: OwnerPc, next: State, pc': OwnerPc)
    requires Act(LogoutAt(s, e, pc), e, Owner(Logout, pc), NO) == Access(LogoutAt(next, e, pc), pc')
    requires s.owners == next.owners
    ensures Step(LogoutAt(s, e, pc), OwnerMoves(e, NO)) == LogoutAt(next, e, pc')
  {
    assert s.owners[e := Owner(Logout, pc)][e := Owner(Logout, pc')] == s.owners[e := Owner(Logout, pc')];
  }

  lemma RunMore(s: State, events: seq<Event>, event: Event)
    ensures Run(s, events + [event]) == Step(Run(s, events), event)
  {
    RunAppend(s, events, [event]);
    RunOne(Run(s, events), event);
  }

  /** The session of startup, and a logout that is about to wipe the stored credential. */
  function Leaving(token: string): State {
    var s := Start(false, Some(token), Some(token), None);
    s.(value := 1, holder := OwnerHolds(1), cells := s.cells.(token := None))
  }

  lemma LogoutBegins(token: string) returns (events: seq<Event>)
    ensures Run(Start(false, Some(token), Some(token), None), events) == LogoutAt(Leaving(token), 1, ClearStored)
  {
    var start := Start(false, Some(token), Some(token), None);
    var s := start.(value := 1);
    var h := s.(holder := OwnerHolds(1));
    var event := OwnerMoves(1, NO);
    var e1 := [StartLogout];
    RunOne(start, StartLogout);
    assert Step(start, StartLogout) == LogoutAt(s, 1, WaitCleanup);
    LogoutMoves(s, 1, WaitCleanup, h, CheckCleanup);
    RunMore(start, e1, event);
    var e2 := e1 + [event];
    LogoutMoves(h, 1, CheckCleanup, h, ClearToken);
    RunMore(start, e2, event);
    var e3 := e2 + [event];
    LogoutMoves(h, 1, ClearToken, Leaving(token), ClearUser);
    RunMore(start, e3, event);
    var e4 := e3 + [event];
    LogoutMoves(Leaving(token), 1, ClearUser, Leaving(token), ClearStored);
    RunMore(start, e4, event);
    events := e4 + [event];
  }

  /** A run in which the tombstone cannot be written and the store does not answer: the logout
      finishes, and the credential of the session it ended is still there. */
  lemma CredentialOutlivesLogout(token: string) returns (events: seq<Event>)
    ensures var s := Run(Start(false, Some(token), Some(token), None), events);
            && s.value == 1 && 1 in s.owners && s.owners[1] == Owner(Logout, Finished)
            && s.cells.token == None && s.cells.stored == Some(Owned(token, 0)) && 1 in s.unwiped
  {
    var start := Start(false, Some(token), Some(token), None);
    var c := Leaving(token);
    var u := c.(unwiped := c.unwiped + {1});
    var event := OwnerMoves(1, NO);
    var e5 := LogoutBegins(token);
    LogoutMoves(c, 1, ClearStored, u, EndCleanup);
    RunMore(start, e5, event);
    LogoutMoves(u, 1, EndCleanup, u.(holder := Nobody), Finished);
    RunMore(start, e5 + [event], event);
    events := e5 + [event] + [event];
  }
}
