/** What logins, logouts, refresh loops and requests achieve when nothing interrupts them and the
    outside world answers with success. */
module DesktopSessionProgress {
  import opened Wrappers
  import opened DesktopSession

  lemma {:induction false} RunAppend(s: State, a: seq<Event>, b: seq<Event>)
    ensures Run(s, a + b) == Run(Run(s, a), b)
    decreases |a|
  {
    if a == [] {
      assert a + b == b;
    } else {
      assert (a + b)[1..] == a[1..] + b;
      RunAppend(Step(s, a[0]), a[1..], b);
    }
  }

  lemma RunOne(s: State, event: Event)
    ensures Run(s, [event]) == Step(s, event)
  {
  }

  /** The same event, as often as it takes. */
  function Repeat(event: Event, n: nat): seq<Event>
  {
    if n == 0 then [] else [event] + Repeat(event, n - 1)
  }

  lemma RunRepeated(s: State, event: Event, n: nat)
    requires n > 0
    ensures Run(s, Repeat(event, n)) == Run(Step(s, event), Repeat(event, n - 1))
  {
    assert Repeat(event, n)[1..] == Repeat(event, n - 1);
  }

  /** Everything succeeds, and whatever text is asked for is this one. */
  function Success(text: string): Reply { Reply(Some(text), true, false) }

  // ---------------------------------------------------------------- logins and logouts

  /** How many accesses a task has before it when everything succeeds. */
  function StepsLeft(pc: OwnerPc, hybrid: bool): nat {
    match pc
    case WaitCleanup => if hybrid then 17 else 16
    case CheckCleanup => if hybrid then 16 else 15
    case ClearToken => if hybrid then 15 else 14
    case ClearUser => if hybrid then 14 else 13
    case ClearStored => if hybrid then 13 else 12
    case ClearBridge => 12
    case EndCleanup => 11
    case Cleaned => 10
    case Redeeming => 9
    case WaitInstall(_) => 8
    case CheckInstall(_) => 7
    case SetToken(_) => 6
    case SaveStored(_) => 5
    case TestActive(_) => 4
    case StoreActive(_) => 3
    case EndInstall(_) => 2
    case Installed(_) => 1
    case Finished => 0
    case Stale => 0
  }

  /** A logout is done when the cleanup is. */
  function Left(kind: Kind, pc: OwnerPc, hybrid: bool): nat {
    if kind == Login then StepsLeft(pc, hybrid) else if InCleanup(pc) then StepsLeft(pc, hybrid) - 10 else 0
  }

  /** The current task of epoch `e` stands at `pc`, and nobody else is in its way. */
  ghost predicate TaskAt(s: State, e: nat, kind: Kind, pc: OwnerPc) {
    e in s.owners && s.owners[e] == Owner(kind, pc) && MayStand(s, e, kind, pc)
  }

  predicate MayStand(s: State, e: nat, kind: Kind, pc: OwnerPc) {
    && s.value == e && !pc.Stale?
    && (kind == Logout ==> InCleanup(pc) || pc.Finished?)
    && s.holder == if OwnerInside(pc) then OwnerHolds(e) else Nobody
  }

  /** What the cleanup has emptied so far. */
  ghost predicate CleanedUp(s: State, kind: Kind, pc: OwnerPc) {
    var over := pc.Cleaned? || (kind == Logout && pc.Finished?);
    && (pc.ClearUser? || pc.ClearStored? || pc.ClearBridge? || pc.EndCleanup? || over ==> s.cells.token == None)
    && (pc.ClearStored? || pc.ClearBridge? || pc.EndCleanup? || over ==> s.cells.user == None)
    && (pc.ClearBridge? || pc.EndCleanup? || over ==> s.cells.stored == None)
    && (s.hybrid && (pc.EndCleanup? || over) ==> s.cells.bridge == None)
  }

  /** What a login has achieved so far with the token `tok`. */
  ghost predicate LoggedIn(s: State, e: nat, pc: OwnerPc, tok: string) {
    && (HasRedeemed(pc) ==> pc.tok == tok)
    && (HasRedeemed(pc) || pc.Finished? ==> e in s.redeemed && s.redeemed[e] == tok)
    && (OwnsToken(pc) || pc.Installed? || pc.Finished? ==> s.cells.token == Some(Owned(tok, e)))
    && (pc.TestActive? || pc.StoreActive? || pc.EndInstall? || pc.Installed? || pc.Finished? ==>
          s.cells.stored == Some(Owned(tok, e)))
    && (pc.EndInstall? || pc.Installed? || pc.Finished? ==> s.active == e)
    && (pc.Finished? && s.hybrid ==> e in s.loops && s.loops[e] == ReadToken)
  }

  ghost predicate Achieved(s: State, e: nat, kind: Kind, pc: OwnerPc, tok: string) {
    CleanedUp(s, kind, pc) && (kind == Login ==> LoggedIn(s, e, pc, tok))
  }

  /** The access brings the task one step further, and touches nothing else. */
  ghost predicate Advances(s: State, act: Access<OwnerPc>, e: nat, kind: Kind, pc: OwnerPc, tok: string) {
    && MayStand(act.shared, e, kind, act.next) && Achieved(act.shared, e, kind, act.next, tok)
    && Left(kind, pc, s.hybrid) == Left(kind, act.next, s.hybrid) + 1
    && act.shared.hybrid == s.hybrid && act.shared.requests == s.requests
  }

  lemma ClearAdvances(s: State, e: nat, kind: Kind, pc: OwnerPc, tok: string)
    requires MayStand(s, e, kind, pc) && Achieved(s, e, kind, pc, tok)
    requires pc.ClearToken? || pc.ClearUser? || pc.ClearStored? || pc.ClearBridge?
    ensures Advances(s, Clear(s, e, pc, Success(tok)), e, kind, pc, tok)
  {
    match pc
    case ClearToken =>
    case ClearUser =>
    case ClearStored =>
    case ClearBridge =>
  }

  lemma CleanupAdvances(s: State, e: nat, kind: Kind, pc: OwnerPc, tok: string)
    requires MayStand(s, e, kind, pc) && Achieved(s, e, kind, pc, tok) && InCleanup(pc)
    ensures Advances(s, Cleanup(s, e, Owner(kind, pc), Success(tok)), e, kind, pc, tok)
  {
    match pc
    case WaitCleanup =>
    case CheckCleanup =>
    case EndCleanup =>
    case _ => ClearAdvances(s, e, kind, pc, tok);
  }

  lemma RedeemAdvances(s: State, e: nat, pc: OwnerPc, tok: string)
    requires MayStand(s, e, Login, pc) && Achieved(s, e, Login, pc, tok)
    requires pc.Cleaned? || pc.Redeeming? || pc.WaitInstall? || pc.Installed?
    ensures Advances(s, Redeem(s, e, pc, Success(tok)), e, Login, pc, tok)
  {
    match pc
    case Cleaned =>
    case Redeeming =>
    case WaitInstall(_) =>
    case Installed(_) =>
  }

  lemma InstallAdvances(s: State, e: nat, pc: OwnerPc, tok: string)
    requires MayStand(s, e, Login, pc) && Achieved(s, e, Login, pc, tok) && InInstall(pc)
    ensures Advances(s, Install(s, e, pc, Success(tok)), e, Login, pc, tok)
  {
    if pc.TestActive? || pc.StoreActive? || pc.EndInstall? {
      ActivateAdvances(s, e, pc, tok);
    } else {
      match pc
      case CheckInstall(_) =>
      case SetToken(_) =>
      case SaveStored(_) =>
    }
  }

  lemma ActivateAdvances(s: State, e: nat, pc: OwnerPc, tok: string)
    requires MayStand(s, e, Login, pc) && Achieved(s, e, Login, pc, tok)
    requires pc.TestActive? || pc.StoreActive? || pc.EndInstall?
    ensures Advances(s, Install(s, e, pc, Success(tok)), e, Login, pc, tok)
  {
    match pc
    case TestActive(_) =>
    case StoreActive(_) =>
    case EndInstall(_) =>
  }

  lemma ActAdvances(s: State, e: nat, kind: Kind, pc: OwnerPc, tok: string)
    requires MayStand(s, e, kind, pc) && Achieved(s, e, kind, pc, tok) && !pc.Finished?
    ensures Advances(s, Act(s, e, Owner(kind, pc), Success(tok)), e, kind, pc, tok)
  {
    if InCleanup(pc) { CleanupAdvances(s, e, kind, pc, tok); }
    else if InInstall(pc) { InstallAdvances(s, e, pc, tok); }
    else { RedeemAdvances(s, e, pc, tok); }
  }

  lemma TaskAdvances(s: State, e: nat, kind: Kind, pc: OwnerPc, tok: string)
    requires TaskAt(s, e, kind, pc) && Achieved(s, e, kind, pc, tok) && !pc.Finished?
    ensures var t := Step(s, OwnerMoves(e, Success(tok)));
            && e in t.owners && t.hybrid == s.hybrid && t.requests == s.requests
            && TaskAt(t, e, kind, t.owners[e].pc) && Achieved(t, e, kind, t.owners[e].pc, tok)
            && Left(kind, pc, s.hybrid) == Left(kind, t.owners[e].pc, s.hybrid) + 1
  {
    ActAdvances(s, e, kind, pc, tok);
  }

  lemma {:induction false} TaskFinishes(s: State, e: nat, kind: Kind, pc: OwnerPc, tok: string)
    requires TaskAt(s, e, kind, pc) && Achieved(s, e, kind, pc, tok)
    ensures var t := Run(s, Repeat(OwnerMoves(e, Success(tok)), Left(kind, pc, s.hybrid)));
            && TaskAt(t, e, kind, Finished) && Achieved(t, e, kind, Finished, tok)
            && t.hybrid == s.hybrid && t.requests == s.requests
    decreases Left(kind, pc, s.hybrid)
  {
    if !pc.Finished? {
      var event := OwnerMoves(e, Success(tok));
      TaskAdvances(s, e, kind, pc, tok);
      RunRepeated(s, event, Left(kind, pc, s.hybrid));
      TaskFinishes(Step(s, event), e, kind, Step(s, event).owners[e].pc, tok);
    }
  }

  /** A login that finds the mutex free and meets with success everywhere makes its token the session,
      in memory and in the store, and its epoch the active one; a hybrid desktop starts its loop. */
  lemma LoginAchieves(s: State, e: nat, tok: string)
    requires e in s.owners && s.owners[e] == Owner(Login, WaitCleanup) && s.value == e && s.holder == Nobody
    ensures var t := Run(s, Repeat(OwnerMoves(e, Success(tok)), StepsLeft(WaitCleanup, s.hybrid)));
            && e in t.owners && t.owners[e] == Owner(Login, Finished) && t.value == e && t.holder == Nobody
            && t.cells.token == t.cells.stored == Some(Owned(tok, e)) && t.active == e
            && e in t.redeemed && t.redeemed[e] == tok
            && (s.hybrid ==> e in t.loops && t.loops[e] == ReadToken)
            && t.hybrid == s.hybrid && t.requests == s.requests
  {
    TaskFinishes(s, e, Login, WaitCleanup, tok);
  }

  /** And such a logout empties every cell. */
  lemma LogoutAchieves(s: State, e: nat, tok: string)
    requires e in s.owners && s.owners[e] == Owner(Logout, WaitCleanup) && s.value == e && s.holder == Nobody
    ensures var t := Run(s, Repeat(OwnerMoves(e, Success(tok)), Left(Logout, WaitCleanup, s.hybrid)));
            && e in t.owners && t.owners[e] == Owner(Logout, Finished) && t.value == e && t.holder == Nobody
            && t.cells.token == None && t.cells.stored == None && t.cells.user == None
            && (s.hybrid ==> t.cells.bridge == None)
  {
    TaskFinishes(s, e, Logout, WaitCleanup, tok);
  }

  // ---------------------------------------------------------------- what has been saved stays

  predicate PastSave(pc: OwnerPc) {
    pc.TestActive? || pc.StoreActive? || pc.EndInstall? || pc.Installed? || pc.Finished? || pc.Stale?
  }

  /** The login of the current epoch has saved its token, and the store holds it. */
  ghost predicate KeepsCredential(s: State, e: nat, tok: string) {
    && e in s.owners && PastSave(s.owners[e].pc) && s.value >= e
    && e in s.redeemed && s.redeemed[e] == tok
    && (s.value == e ==> s.cells.stored == Some(Owned(tok, e)))
  }

  lemma StepKeepsCredential(s: State, event: Event, e: nat, tok: string)
    requires Inv(s) && KeepsCredential(s, e, tok)
    ensures KeepsCredential(Step(s, event), e, tok)
  {
    match event
    case OwnerMoves(x, reply) =>
      if x in s.owners {
        assert OwnerOk(s, x, s.owners[x]) && OwnerOk(s, e, s.owners[e]);
        StepOwnerStepped(s, x, reply);
        OwnerKeepsCredential(s, Step(s, event), x, e, tok);
      }
    case LoopMoves(x, reply) =>
      if x in s.loops {
        assert LoopOk(s, x, s.loops[x]);
        StepLoopStepped(s, x, reply);
      }
    case _ =>
  }

  lemma OwnerKeepsCredential(s: State, t: State, x: nat, e: nat, tok: string)
    requires OwnerStepped(s, t, x) && OwnerOk(s, x, s.owners[x]) && KeepsCredential(s, e, tok)
    requires OwnerOk(s, e, s.owners[e]) && (x == e ==> PastSave(t.owners[e].pc))
    ensures KeepsCredential(t, e, tok)
  {
  }

  lemma {:induction false} RunKeepsCredential(s: State, events: seq<Event>, e: nat, tok: string)
    requires Inv(s) && KeepsCredential(s, e, tok)
    ensures KeepsCredential(Run(s, events), e, tok)
    decreases |events|
  {
    if events != [] {
      StepKeepsInv(s, events[0]);
      StepKeepsCredential(s, events[0], e, tok);
      RunKeepsCredential(Step(s, events[0]), events[1..], e, tok);
    }
  }

  /** Over every run: when the save of a login's token is answered with success, the store holds the
      token that login has redeemed for as long as its epoch is the current one. */
  lemma SavedCredentialStays(s: State, e: nat, tok: string, reply: Reply, events: seq<Event>)
    requires Inv(s) && e in s.owners && s.owners[e].pc == SaveStored(tok) && reply.ok
    ensures var t := Run(Step(s, OwnerMoves(e, reply)), events);
            && e in t.redeemed && t.redeemed[e] == tok
            && (t.value == e ==> t.cells.stored == Some(Owned(tok, e)))
  {
    assert OwnerOk(s, e, s.owners[e]);
    StepKeepsInv(s, OwnerMoves(e, reply));
    RunKeepsCredential(Step(s, OwnerMoves(e, reply)), events, e, tok);
  }

  // ---------------------------------------------------------------- requests

  function At(s: State, id: nat, pc: RequestPc): State {
    s.(requests := s.requests[id := pc])
  }

  /** A request moving alone; `pc` goes through the states `Proxy` gives. */
  function ProxyAlone(s: State, pc: RequestPc, n: nat): RequestPc
    decreases n
  {
    if n == 0 then pc else ProxyAlone(s, Proxy(s, pc, Success("")), n - 1)
  }

  lemma RequestMovesOn(s: State, id: nat, pc: RequestPc)
    ensures Step(At(s, id, pc), RequestMoves(id, Success(""))) == At(s, id, Proxy(s, pc, Success("")))
  {
    assert Step(At(s, id, pc), RequestMoves(id, Success(""))).requests == At(s, id, Proxy(s, pc, Success(""))).requests;
  }

  lemma {:induction false} RequestAlone(s: State, id: nat, pc: RequestPc, n: nat)
    ensures Run(At(s, id, pc), Repeat(RequestMoves(id, Success("")), n)) == At(s, id, ProxyAlone(s, pc, n))
    decreases n
  {
    if n > 0 {
      var event := RequestMoves(id, Success(""));
      RunRepeated(At(s, id, pc), event, n);
      RequestMovesOn(s, id, pc);
      RequestAlone(s, id, Proxy(s, pc, Success("")), n - 1);
    }
  }

  lemma RequestReachesLastRead(s: State)
    requires s.active == s.value
    ensures ProxyAlone(s, ReadEpoch, 8) == FinalActive(s.value, s.value, s.value)
  {
  }

  /** A request that nothing interrupts stands before its very last read. */
  lemma RequestAloneArrives(s: State, id: nat)
    requires id !in s.requests && s.active == s.value
    ensures Run(s, [RequestArrives(id)] + Repeat(RequestMoves(id, Success("")), 8))
         == At(s, id, FinalActive(s.value, s.value, s.value))
  {
    RunAppend(s, [RequestArrives(id)], Repeat(RequestMoves(id, Success("")), 8));
    RunOne(s, RequestArrives(id));
    RequestAlone(s, id, ReadEpoch, 8);
    RequestReachesLastRead(s);
  }

  lemma RequestAloneEnds(s: State, id: nat, e: nat)
    requires id in s.requests && s.requests[id] == FinalActive(e, e, e) && s.active == s.value
    ensures Run(s, Repeat(RequestMoves(id, Success("")), 2)) == At(s, id, Forwarded(e, e, e, s.active, s.value))
  {
    assert s == At(s, id, FinalActive(e, e, e));
    RequestAlone(s, id, FinalActive(e, e, e), 2);
    assert ProxyAlone(s, FinalActive(e, e, e), 2) == ProxyAlone(s, FinalCompare(e, e, e, s.active), 1);
  }


  /** A request that nothing interrupts while its epoch is the active one is forwarded. */
  lemma RequestAchieves(s: State, id: nat)
    requires id !in s.requests && s.active == s.value
    ensures var t := Run(s, [RequestArrives(id)] + Repeat(RequestMoves(id, Success("")), 8)
                            + Repeat(RequestMoves(id, Success("")), 2));
            id in t.requests && t.requests[id] == Forwarded(s.value, s.value, s.value, s.value, s.value)
  {
    var event := RequestMoves(id, Success(""));
    RequestAloneArrives(s, id);
    RunAppend(s, [RequestArrives(id)] + Repeat(event, 8), Repeat(event, 2));
    RequestAloneEnds(At(s, id, FinalActive(s.value, s.value, s.value)), id, s.value);
  }

  // ---------------------------------------------------------------- refresh loops

  /** How many accesses follow once the call at this site has passed, up to the end of the first round. */
  function SiteLeft(site: Site): nat {
    match site
    case Launch => 54
    case RetryFetch => 49
    case PublishUser(_) => 42
    case AwaitReady(_) => 36
    case LoopHead => 30
    case SyncBegin => 25
    case Issued(_) => 19
    case Push(_) => 12
    case Pushed => 6
    case Imported => 0
    case SyncEnd => 0
  }

  function ChecksLeft(progress: Progress): nat {
    match progress
    case FirstMatch => 5
    case LoadActive => 4
    case CompareActive(_) => 3
    case ReadSession(_) => 2
    case LastMatch(_) => 1
  }

  function LoopLeft(l: LoopPc): nat {
    match l
    case ReadToken => 60
    case Checking(_, site, progress) => if site.SyncEnd? then 0 else SiteLeft(site) + ChecksLeft(progress)
    case Fetching(_) => 49
    case WaitUser(_, _) => 48
    case WriteUser(_, _) => 42
    case Polling(_, _) => 36
    case Issuing(_) => 25
    case FetchingModels(_, _) => 19
    case WaitPush(_, _) => 18
    case Pushing(_, _) => 12
    case Importing(_) => 6
    case Ended => 0
  }

  /** What the loop has in hand is what it was given. */
  predicate Carries(l: LoopPc, e: nat, tok: string, user: string, cap: string) {
    match l
    case ReadToken => true
    case Checking(t, site, progress) =>
      && t == tok
      && (site.PublishUser? ==> site.user == user) && (site.Issued? || site.Push? ==> site.cap == cap)
      && (progress.CompareActive? || progress.ReadSession? || progress.LastMatch? ==> progress.seen == e)
    case WaitUser(t, u) => t == tok && u == user
    case WriteUser(t, u) => t == tok && u == user
    case FetchingModels(t, c) => t == tok && c == cap
    case WaitPush(t, c) => t == tok && c == cap
    case Pushing(t, c) => t == tok && c == cap
    case Ended => false
    case _ => l.tok == tok
  }

  /** The loop of the active epoch stands at `l`, nobody is in its way, and what it should have published
      by then it has. */
  ghost predicate MayLoop(s: State, e: nat, l: LoopPc, tok: string, user: string, cap: string) {
    && s.value == e == s.active && s.cells.token.Some? && s.cells.token.value.text == tok
    && s.holder == (if LoopInside(l) then LoopHolds(e) else Nobody)
    && Carries(l, e, tok, user, cap)
    && (LoopLeft(l) <= 41 ==> s.cells.user == Some(Entry(user, e, tok)))
    && (LoopLeft(l) <= 11 ==> s.cells.bridge == Some(Entry(cap, e, tok)))
  }

  ghost predicate LoopAdvances(act: Access<LoopPc>, e: nat, l: LoopPc, tok: string, user: string, cap: string) {
    MayLoop(act.shared, e, act.next, tok, user, cap) && LoopLeft(l) == LoopLeft(act.next) + 1
  }

  /** Success everywhere; the identity and the capability are the texts fetched. */
  function Fetched(l: LoopPc, user: string, cap: string): Reply {
    Success(if l.Fetching? then user else cap)
  }

  lemma CheckAdvances(s: State, e: nat, l: LoopPc, tok: string, user: string, cap: string)
    requires MayLoop(s, e, l, tok, user, cap) && l.Checking? && LoopLeft(l) > 0
    ensures LoopAdvances(Check(s, e, l.tok, l.site, l.progress), e, l, tok, user, cap)
  {
    match l.progress
    case FirstMatch =>
    case LoadActive =>
    case CompareActive(_) =>
    case ReadSession(_) =>
    case LastMatch(_) => PassedAdvances(s, e, l, tok, user, cap);
  }

  lemma PassedAdvances(s: State, e: nat, l: LoopPc, tok: string, user: string, cap: string)
    requires MayLoop(s, e, l, tok, user, cap) && l.Checking? && l.progress.LastMatch? && LoopLeft(l) > 0
    ensures LoopAdvances(Passed(s, tok, l.site), e, l, tok, user, cap)
  {
    match l.site
    case Launch =>
    case RetryFetch =>
    case PublishUser(_) =>
    case AwaitReady(_) =>
    case LoopHead =>
    case SyncBegin =>
    case Issued(_) =>
    case Push(_) =>
    case Pushed =>
    case Imported =>
  }

  lemma ProceedAdvances(s: State, e: nat, l: LoopPc, tok: string, user: string, cap: string)
    requires MayLoop(s, e, l, tok, user, cap) && !l.Checking? && !LoopPastCheck(l)
    ensures LoopAdvances(Proceed(s, e, l, Fetched(l, user, cap)), e, l, tok, user, cap)
  {
    match l
    case ReadToken =>
    case Fetching(_) =>
    case WaitUser(_, _) =>
    case Polling(_, _) =>
    case Issuing(_) =>
    case FetchingModels(_, _) =>
    case WaitPush(_, _) =>
  }

  lemma PublishAdvances(s: State, e: nat, l: LoopPc, tok: string, user: string, cap: string)
    requires MayLoop(s, e, l, tok, user, cap) && LoopPastCheck(l)
    ensures LoopAdvances(Publish(s, e, l, Fetched(l, user, cap)), e, l, tok, user, cap)
  {
    match l
    case WriteUser(_, _) =>
    case Pushing(_, _) =>
    case Importing(_) =>
  }

  lemma LoopMovesOn(s: State, e: nat, l: LoopPc, tok: string, user: string, cap: string)
    requires e in s.loops && s.loops[e] == l && MayLoop(s, e, l, tok, user, cap) && LoopLeft(l) > 0
    ensures var t := Step(s, LoopMoves(e, Fetched(l, user, cap)));
            && e in t.loops && MayLoop(t, e, t.loops[e], tok, user, cap) && LoopLeft(l) == LoopLeft(t.loops[e]) + 1
  {
    if l.Checking? { CheckAdvances(s, e, l, tok, user, cap); }
    else if LoopPastCheck(l) { PublishAdvances(s, e, l, tok, user, cap); }
    else { ProceedAdvances(s, e, l, tok, user, cap); }
  }

  /** The events of one loop, all answered with success. */
  predicate LoopSucceeds(events: seq<Event>, e: nat) {
    forall event | event in events :: event.LoopMoves? && event.epoch == e && event.reply.ok && event.reply.text.Some?
  }

  lemma {:induction false} LoopFinishes(s: State, e: nat, tok: string, user: string, cap: string)
    returns (events: seq<Event>)
    requires e in s.loops && MayLoop(s, e, s.loops[e], tok, user, cap)
    ensures LoopSucceeds(events, e) && |events| == LoopLeft(s.loops[e])
    ensures var t := Run(s, events);
            e in t.loops && MayLoop(t, e, t.loops[e], tok, user, cap) && LoopLeft(t.loops[e]) == 0
    decreases LoopLeft(s.loops[e])
  {
    var l := s.loops[e];
    if LoopLeft(l) == 0 {
      events := [];
    } else {
      var event := LoopMoves(e, Fetched(l, user, cap));
      LoopMovesOn(s, e, l, tok, user, cap);
      var rest := LoopFinishes(Step(s, event), e, tok, user, cap);
      events := [event] + rest;
      assert events[1..] == rest;
    }
  }

  /** A loop of the active epoch that meets with success everywhere publishes the identity and the bridge
      it has fetched for the session, in sixty accesses, and gives the mutex back. */
  lemma LoopAchieves(s: State, e: nat, user: string, cap: string) returns (events: seq<Event>)
    requires e in s.loops && s.loops[e] == ReadToken && s.value == e == s.active && s.holder == Nobody
    requires s.cells.token.Some?
    ensures LoopSucceeds(events, e) && |events| == 60
    ensures var t := Run(s, events); var tok := s.cells.token.value.text;
            && t.cells.user == Some(Entry(user, e, tok)) && t.cells.bridge == Some(Entry(cap, e, tok))
            && t.holder == Nobody && e in t.loops && t.loops[e].Checking? && t.loops[e].site.SyncEnd?
  {
    events := LoopFinishes(s, e, s.cells.token.value.text, user, cap);
  }

  /** The session of startup has its loop at once, and that loop publishes it. */
  lemma StartupAchieves(token: string, stored: Option<string>, leftover: Option<string>, user: string, cap: string)
    returns (events: seq<Event>)
    ensures LoopSucceeds(events, 0)
    ensures var t := Run(Start(true, Some(token), stored, leftover), events);
            t.cells.user == Some(Entry(user, 0, token)) && t.cells.bridge == Some(Entry(cap, 0, token))
    ensures Start(true, None, stored, leftover).loops == map[]
  {
    events := LoopAchieves(Start(true, Some(token), stored, leftover), 0, user, cap);
  }

  lemma StepStartsNoLoop(s: State, event: Event)
    requires !s.hybrid && s.loops == map[]
    ensures !Step(s, event).hybrid && Step(s, event).loops == map[]
  {
  }

  lemma {:induction false} RunStartsNoLoop(s: State, events: seq<Event>)
    requires !s.hybrid && s.loops == map[]
    ensures Run(s, events).loops == map[]
    decreases |events|
  {
    if events != [] {
      StepStartsNoLoop(s, events[0]);
      RunStartsNoLoop(Step(s, events[0]), events[1..]);
    }
  }

  /** A desktop without a local backend never runs one. */
  lemma CloudOnlyHasNoLoops(loaded: Option<string>, stored: Option<string>, leftover: Option<string>,
                            events: seq<Event>)
    ensures Run(Start(false, loaded, stored, leftover), events).loops == map[]
  {
    RunStartsNoLoop(Start(false, loaded, stored, leftover), events);
  }

  // ---------------------------------------------------------------- a local server that does not get ready

  /** Nothing succeeds. */
  const FAILURE := Reply(None, false, false)

  /** How many accesses a loop that waits for the local server has before it when no probe succeeds: for
      every probe but the first one the five of the check before it, too. */
  function PollsLeft(l: LoopPc): nat {
    match l
    case Polling(_, tries) => if tries == 0 then 1 else 6 * tries - 5
    case Checking(_, site, progress) =>
      if !site.AwaitReady? then 0
      else ChecksLeft(progress) + if site.tries == 0 then 1 else 6 * site.tries - 5
    case _ => 0
  }

  /** The loop of the active epoch waits for the local server, or has given up. */
  ghost predicate Waits(s: State, e: nat, tok: string) {
    && s.value == e == s.active && s.cells.token.Some? && s.cells.token.value.text == tok && e in s.loops
    && match s.loops[e]
       case Polling(t, _) => t == tok
       case Checking(t, site, progress) =>
         t == tok && site.AwaitReady?
         && (progress.CompareActive? || progress.ReadSession? || progress.LastMatch? ==> progress.seen == e)
       case l => l.Ended?
  }

  lemma WaitsOn(s: State, e: nat, tok: string)
    requires Waits(s, e, tok) && !s.loops[e].Ended?
    ensures var t := Step(s, LoopMoves(e, FAILURE));
            Waits(t, e, tok) && PollsLeft(s.loops[e]) == PollsLeft(t.loops[e]) + 1
  {
    var l := s.loops[e];
    if l.Checking? {
      match l.progress
      case FirstMatch =>
      case LoadActive =>
      case CompareActive(_) =>
      case ReadSession(_) =>
      case LastMatch(_) =>
    }
  }

  lemma {:induction false} WaitsAsLong(s: State, e: nat, tok: string, n: nat)
    requires Waits(s, e, tok) && n <= PollsLeft(s.loops[e])
    ensures var t := Run(s, Repeat(LoopMoves(e, FAILURE), n));
            Waits(t, e, tok) && PollsLeft(t.loops[e]) == PollsLeft(s.loops[e]) - n
    decreases n
  {
    if n > 0 {
      WaitsOn(s, e, tok);
      RunRepeated(s, LoopMoves(e, FAILURE), n);
      WaitsAsLong(Step(s, LoopMoves(e, FAILURE)), e, tok, n - 1);
    }
  }

  /** Once it has published the identity, a loop probes a server that does not answer 480 times, with a
      check before each, and then gives up; not before. */
  lemma GivesUpAfterProbes(s: State, e: nat, user: string, n: nat)
    requires e in s.loops && s.value == e == s.active && s.cells.token.Some?
    requires s.loops[e] == WriteUser(s.cells.token.value.text, user)
    requires n <= 480 * 6
    ensures var t := Run(Step(s, LoopMoves(e, FAILURE)), Repeat(LoopMoves(e, FAILURE), n));
            e in t.loops && (t.loops[e].Ended? <==> n == 480 * 6)
  {
    WaitsAsLong(Step(s, LoopMoves(e, FAILURE)), e, s.cells.token.value.text, n);
  }
}
