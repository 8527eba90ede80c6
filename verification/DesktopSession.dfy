/** The desktop shell's session-epoch protocol.

    Logins, logouts, refresh loops and proxied requests run as concurrent tasks over one
    epoch counter, one "active" marker, four cells and one `local_write` mutex. The model is
    a transition function: every event moves one task across one atomic access. A task that
    cannot move (it waits for the mutex, say) leaves the state alone, so every finite sequence
    of events is a run.

    `advance()` is an atomic increment, so each value it returns belongs to one task only: the
    login or logout task is keyed by the epoch it drew, and the refresh loop a login starts
    carries the same number. Epoch 0 is the session loaded at startup.

    A cell remembers, next to its text, the epoch of the task that wrote it and (for what was
    fetched from the cloud) the session token it was fetched with. No step branches on either. */
module DesktopSession {
  import opened Wrappers

  /** A session token in memory or in the credential store, with the epoch that put it there. */
  datatype Owned = Owned(text: string, owner: nat)

  /** What a refresh loop wrote: its epoch and the session token it used to obtain the text. */
  datatype Entry = Entry(text: string, epoch: nat, session: string)

  /** The cells in scope: the token and the bridge identity in memory, what the credential store
      would give back, and the local backend's cloud bridge. */
  datatype Cells = Cells(token: Option<Owned>, user: Option<Entry>, stored: Option<Owned>, bridge: Option<Entry>)

  /** Who holds `local_write`. */
  datatype Holder = Nobody | OwnerHolds(epoch: nat) | LoopHolds(epoch: nat)

  datatype Kind = Login | Logout

  /** Where a login or logout task stands. */
  datatype OwnerPc =
    | WaitCleanup                    // advanced, waiting for the mutex
    | CheckCleanup                   // mutex taken, about to compare the epoch
    | ClearToken | ClearUser | ClearStored | ClearBridge | EndCleanup
    | Cleaned                        // mutex released after the cleanup
    | Redeeming
    | WaitInstall(tok: string)
    | CheckInstall(tok: string)
    | SetToken(tok: string) | SaveStored(tok: string)
    | TestActive(tok: string) | StoreActive(tok: string) | EndInstall(tok: string)
    | Installed(tok: string)         // mutex released after the installation
    | Finished
    | Stale                          // gave up: the epoch had moved on

  datatype Owner = Owner(kind: Kind, pc: OwnerPc)

  /** The call sites of `current_session` inside a refresh loop. */
  datatype Site =
    | Launch
    | RetryFetch
    | PublishUser(user: string)      // under the mutex
    | AwaitReady(tries: nat)
    | LoopHead
    | SyncBegin
    | Issued(cap: string)
    | Push(cap: string)              // under the mutex
    | Pushed                         // under the mutex
    | Imported                       // under the mutex
    | SyncEnd

  /** The atomic reads of one `current_session` call, in program order. `seen` is the value
      `is_active` loaded from the marker. */
  datatype Progress =
    | FirstMatch
    | LoadActive
    | CompareActive(seen: nat)
    | ReadSession(seen: nat)
    | LastMatch(seen: nat)

  datatype LoopPc =
    | ReadToken
    | Checking(tok: string, site: Site, progress: Progress)
    | Fetching(tok: string)
    | WaitUser(tok: string, user: string)
    | WriteUser(tok: string, user: string)   // under the mutex
    | Polling(tok: string, tries: nat)
    | Issuing(tok: string)
    | FetchingModels(tok: string, cap: string)
    | WaitPush(tok: string, cap: string)
    | Pushing(tok: string, cap: string)      // under the mutex
    | Importing(tok: string)                 // under the mutex
    | Ended

  /** Where a proxied request stands; `at` is the counter when the upstream answer arrived, `seen` the
      marker and `end` the counter of the very last comparison. */
  datatype RequestPc =
    | ReadEpoch
    | ReadUser(e: nat)
    | ReadCookie(e: nat)
    | FirstCheck(e: nat)
    | FirstActive(e: nat)
    | FirstCompare(e: nat, seen: nat)
    | Sending(e: nat, first: nat)
    | FinalCheck(e: nat, first: nat, at: nat)
    | FinalActive(e: nat, first: nat, at: nat)
    | FinalCompare(e: nat, first: nat, at: nat, seen: nat)
    | Forwarded(e: nat, first: nat, at: nat, seen: nat, end: nat)
    | Refused

  /** What the outside world answers in one step: a text or a failure, whether the local backend or
      the credential store reports success, and whether a failed local write took effect all the
      same (for a token to be saved: its tombstone is in place). */
  datatype Reply = Reply(text: Option<string>, ok: bool, written: bool)

  datatype Event =
    | StartLogin
    | StartLogout
    | OwnerMoves(epoch: nat, reply: Reply)
    | LoopMoves(epoch: nat, reply: Reply)
    | RequestArrives(id: nat)
    | RequestMoves(id: nat, reply: Reply)

  datatype State = State(
    hybrid: bool,
    value: nat,
    active: nat,
    holder: Holder,
    cells: Cells,
    owners: map<nat, Owner>,
    loops: map<nat, LoopPc>,
    requests: map<nat, RequestPc>,
    redeemed: map<nat, string>,      // the token each login's ticket was exchanged for
    unwiped: set<nat>)               // whose last save reached neither store nor tombstone

  const MAX_READY_PROBES: nat := 480

  function Initial(text: Option<string>): Option<Owned> {
    if text.Some? then Some(Owned(text.value, 0)) else None
  }

  /** Startup: the token that was loaded, if any, is the session of epoch 0, whose refresh loop starts
      at once. The store may hold another one or none, as reading it or moving an older token into it
      can fail. The local backend may still hold a bridge from an earlier desktop process. */
  function Start(hybrid: bool, loaded: Option<string>, stored: Option<string>, leftover: Option<string>): State {
    State(hybrid, 0, 0, Nobody,
          Cells(Initial(loaded), None, Initial(stored),
                if leftover.Some? then Some(Entry(leftover.value, 0, "")) else None),
          map[],
          if hybrid && loaded.Some? then map[0 := ReadToken] else map[],
          map[], map[], {})
  }

  // ---------------------------------------------------------------- transitions

  function Spawn(s: State, kind: Kind): State {
    s.(value := s.value + 1, owners := s.owners[s.value + 1 := Owner(kind, WaitCleanup)])
  }

  /** The shared part after one atomic access, and where the task stands then. */
  datatype Access<Pc> = Access(shared: State, next: Pc)

  /** What a save of nothing or of `tok` does to the credential a later startup would load. */
  function Save(s: State, e: nat, tok: Option<Owned>, reply: Reply): State {
    if reply.ok then s.(cells := s.cells.(stored := tok), unwiped := s.unwiped - {e})
    else if reply.written then s.(cells := s.cells.(stored := None), unwiped := s.unwiped - {e})
    else s.(unwiped := s.unwiped + {e})
  }

  /** First half of a login, and all of a logout: the locked cleanup. */
  function Cleanup(s: State, e: nat, o: Owner, reply: Reply): Access<OwnerPc> {
    match o.pc
    case WaitCleanup =>
      if s.holder == Nobody then Access(s.(holder := OwnerHolds(e)), CheckCleanup)
      else Access(s, WaitCleanup)
    case CheckCleanup =>
      if s.value == e then Access(s, ClearToken) else Access(s.(holder := Nobody), Stale)
    case EndCleanup => Access(s.(holder := Nobody), if o.kind == Logout then Finished else Cleaned)
    case _ => Clear(s, e, o.pc, reply)
  }

  /** The cells one after the other. */
  function Clear(s: State, e: nat, pc: OwnerPc, reply: Reply): Access<OwnerPc> {
    match pc
    case ClearToken => Access(s.(cells := s.cells.(token := None)), ClearUser)
    case ClearUser => Access(s.(cells := s.cells.(user := None)), ClearStored)
    case ClearStored => Access(Save(s, e, None, reply), if s.hybrid then ClearBridge else EndCleanup)
    case ClearBridge => Access(s.(cells := s.cells.(bridge := None)), EndCleanup)
    case _ => Access(s, pc)
  }

  /** A login between its two critical sections, and after the second one. */
  function Redeem(s: State, e: nat, pc: OwnerPc, reply: Reply): Access<OwnerPc> {
    match pc
    case Cleaned => Access(s, if s.value == e then Redeeming else Stale)
    case Redeeming =>
      if reply.text.Some?
      then Access(s.(redeemed := s.redeemed[e := reply.text.value]), WaitInstall(reply.text.value))
      else Access(s, Finished)
    case WaitInstall(tok) =>
      if s.holder == Nobody then Access(s.(holder := OwnerHolds(e)), CheckInstall(tok))
      else Access(s, pc)
    case Installed(tok) =>
      if s.value != e then Access(s, Stale)
      else if s.hybrid then Access(s.(loops := s.loops[e := ReadToken]), Finished)
      else Access(s, Finished)
    case _ => Access(s, pc)
  }

  /** The second critical section of a login: token, credential store, active marker. */
  function Install(s: State, e: nat, pc: OwnerPc, reply: Reply): Access<OwnerPc> {
    match pc
    case CheckInstall(tok) =>
      if s.value == e then Access(s, SetToken(tok)) else Access(s.(holder := Nobody), Stale)
    case SetToken(tok) =>
      Access(s.(cells := s.cells.(token := Some(Owned(tok, e)))), SaveStored(tok))
    case SaveStored(tok) => Access(Save(s, e, Some(Owned(tok, e)), reply), TestActive(tok))
    case TestActive(tok) => Access(s, if s.value == e then StoreActive(tok) else EndInstall(tok))
    case StoreActive(tok) => Access(s.(active := e), EndInstall(tok))
    case EndInstall(tok) => Access(s.(holder := Nobody), Installed(tok))
    case _ => Access(s, pc)
  }

  predicate InCleanup(pc: OwnerPc) {
    pc.WaitCleanup? || pc.CheckCleanup? || pc.ClearToken? || pc.ClearUser? || pc.ClearStored?
    || pc.ClearBridge? || pc.EndCleanup?
  }

  predicate InInstall(pc: OwnerPc) {
    pc.CheckInstall? || pc.SetToken? || OwnsToken(pc)
  }

  function Act(s: State, e: nat, o: Owner, reply: Reply): Access<OwnerPc> {
    if InCleanup(o.pc) then Cleanup(s, e, o, reply)
    else if InInstall(o.pc) then Install(s, e, o.pc, reply)
    else Redeem(s, e, o.pc, reply)
  }

  function StepOwner(s: State, e: nat, reply: Reply): State
    requires e in s.owners
  {
    var act := Act(s, e, s.owners[e], reply);
    act.shared.(owners := s.owners[e := s.owners[e].(pc := act.next)])
  }

  predicate UnderMutex(site: Site) {
    site.PublishUser? || site.Push? || site.Pushed? || site.Imported?
  }

  function Release(s: State, site: Site): State {
    if UnderMutex(site) then s.(holder := Nobody) else s
  }

  /** The call site's `current_session` answered true. */
  function Passed(s: State, tok: string, site: Site): Access<LoopPc> {
    match site
    case Launch => Access(s, Checking(tok, RetryFetch, FirstMatch))
    case RetryFetch => Access(s, Fetching(tok))
    case PublishUser(user) => Access(s, WriteUser(tok, user))
    case AwaitReady(tries) => Access(s, Polling(tok, tries))
    case LoopHead => Access(s, Checking(tok, SyncBegin, FirstMatch))
    case SyncBegin => Access(s, Issuing(tok))
    case Issued(cap) => Access(s, FetchingModels(tok, cap))
    case Push(cap) => Access(s, Pushing(tok, cap))
    case Pushed => Access(s, Importing(tok))
    case Imported => Access(s.(holder := Nobody), Checking(tok, SyncEnd, FirstMatch))
    case SyncEnd => Access(s, Checking(tok, LoopHead, FirstMatch))
  }

  /** The call site's `current_session` answered false: the loop ends, except that inside
      `sync_desktop_runtime_once` only that call fails and its caller checks once more. */
  function FailedCheck(s: State, tok: string, site: Site): Access<LoopPc> {
    Access(Release(s, site),
           if site.SyncBegin? || site.Issued? || site.Push? || site.Pushed? || site.Imported?
           then Checking(tok, SyncEnd, FirstMatch) else Ended)
  }

  /** One atomic read of `current_session`. */
  function Check(s: State, e: nat, tok: string, site: Site, progress: Progress): Access<LoopPc> {
    match progress
    case FirstMatch =>
      if s.value == e then Access(s, Checking(tok, site, LoadActive)) else FailedCheck(s, tok, site)
    case LoadActive => Access(s, Checking(tok, site, CompareActive(s.active)))
    case CompareActive(seen) =>
      if seen == s.value then Access(s, Checking(tok, site, ReadSession(seen)))
      else FailedCheck(s, tok, site)
    case ReadSession(seen) =>
      if s.cells.token.Some? && s.cells.token.value.text == tok
      then Access(s, Checking(tok, site, LastMatch(seen)))
      else FailedCheck(s, tok, site)
    case LastMatch(seen) =>
      if s.value == e then Passed(s, tok, site) else FailedCheck(s, tok, site)
  }

  /** A refresh loop between its checks: reads, requests to the cloud, waiting for the mutex. */
  function Proceed(s: State, e: nat, l: LoopPc, reply: Reply): Access<LoopPc> {
    match l
    case ReadToken =>
      Access(s, if s.cells.token.Some? then Checking(s.cells.token.value.text, Launch, FirstMatch) else Ended)
    case Fetching(tok) =>
      Access(s, if reply.text.Some? then WaitUser(tok, reply.text.value)
                else Checking(tok, RetryFetch, FirstMatch))
    case WaitUser(tok, user) =>
      if s.holder == Nobody
      then Access(s.(holder := LoopHolds(e)), Checking(tok, PublishUser(user), FirstMatch))
      else Access(s, l)
    case Polling(tok, tries) =>
      Access(s, if reply.ok then Checking(tok, LoopHead, FirstMatch)
                else if tries <= 1 then Ended
                else Checking(tok, AwaitReady(tries - 1), FirstMatch))
    case Issuing(tok) =>
      Access(s, Checking(tok, if reply.text.Some? then Issued(reply.text.value) else SyncEnd, FirstMatch))
    case FetchingModels(tok, cap) =>
      Access(s, if reply.ok then WaitPush(tok, cap) else Checking(tok, SyncEnd, FirstMatch))
    case WaitPush(tok, cap) =>
      if s.holder == Nobody
      then Access(s.(holder := LoopHolds(e)), Checking(tok, Push(cap), FirstMatch))
      else Access(s, l)
    case _ => Access(s, l)
  }

  /** A refresh loop past its check under the mutex. */
  function Publish(s: State, e: nat, l: LoopPc, reply: Reply): Access<LoopPc>
    requires LoopPastCheck(l)
  {
    match l
    case WriteUser(tok, user) =>
      Access(s.(cells := s.cells.(user := Some(Entry(user, e, tok))), holder := Nobody),
             Checking(tok, AwaitReady(MAX_READY_PROBES), FirstMatch))
    case Pushing(tok, cap) =>
      var s1 := if reply.ok || reply.written
                then s.(cells := s.cells.(bridge := Some(Entry(cap, e, tok)))) else s;
      if reply.ok then Access(s1, Checking(tok, Pushed, FirstMatch))
      else Access(s1.(holder := Nobody), Checking(tok, SyncEnd, FirstMatch))
    case Importing(tok) =>
      if reply.ok then Access(s, Checking(tok, Imported, FirstMatch))
      else Access(s.(holder := Nobody), Checking(tok, SyncEnd, FirstMatch))
  }

  function StepLoop(s: State, e: nat, reply: Reply): State
    requires e in s.loops
  {
    var l := s.loops[e];
    var act := if l.Checking? then Check(s, e, l.tok, l.site, l.progress)
               else if LoopPastCheck(l) then Publish(s, e, l, reply)
               else Proceed(s, e, l, reply);
    act.shared.(loops := s.loops[e := act.next])
  }

  /** One atomic access of `proxy_handler`; `reply.ok` covers the checks that do not concern the
      session, such as a local backend that is not in sync yet. */
  function Proxy(s: State, pc: RequestPc, reply: Reply): RequestPc {
    match pc
    case ReadEpoch => ReadUser(s.value)
    case ReadUser(e) => ReadCookie(e)
    case ReadCookie(e) => FirstCheck(e)
    case FirstCheck(e) => if s.value == e then FirstActive(e) else Refused
    case FirstActive(e) => FirstCompare(e, s.active)
    case FirstCompare(e, seen) => if seen == s.value && reply.ok then Sending(e, seen) else Refused
    case Sending(e, first) => if reply.ok then FinalCheck(e, first, s.value) else Refused
    case FinalCheck(e, first, at) => if s.value == e then FinalActive(e, first, at) else Refused
    case FinalActive(e, first, at) => FinalCompare(e, first, at, s.active)
    case FinalCompare(e, first, at, seen) =>
      if seen == s.value then Forwarded(e, first, at, seen, s.value) else Refused
    case Forwarded(_, _, _, _, _) => pc
    case Refused => pc
  }

  function StepRequest(s: State, id: nat, reply: Reply): State
    requires id in s.requests
  {
    s.(requests := s.requests[id := Proxy(s, s.requests[id], reply)])
  }

  function Step(s: State, event: Event): State {
    match event
    case StartLogin => Spawn(s, Login)
    case StartLogout => Spawn(s, Logout)
    case OwnerMoves(e, reply) => if e in s.owners then StepOwner(s, e, reply) else s
    case LoopMoves(e, reply) => if e in s.loops then StepLoop(s, e, reply) else s
    case RequestArrives(id) =>
      if id in s.requests then s else s.(requests := s.requests[id := ReadEpoch])
    case RequestMoves(id, reply) => if id in s.requests then StepRequest(s, id, reply) else s
  }

  function Run(s: State, events: seq<Event>): State
    decreases |events|
  {
    if events == [] then s else Run(Step(s, events[0]), events[1..])
  }

  // ---------------------------------------------------------------- the invariant

  predicate OwnerInside(pc: OwnerPc) {
    pc.CheckCleanup? || pc.CheckInstall? || OwnerPastCheck(pc)
  }

  /** Inside the critical section, the epoch comparison behind it. */
  predicate OwnerPastCheck(pc: OwnerPc) {
    pc.ClearToken? || pc.ClearUser? || pc.ClearStored? || pc.ClearBridge? || pc.EndCleanup?
    || pc.SetToken? || OwnsToken(pc)
  }

  /** Inside the installing section with the redeemed token already in the cell. */
  predicate OwnsToken(pc: OwnerPc) {
    pc.SaveStored? || pc.TestActive? || pc.StoreActive? || pc.EndInstall?
  }

  predicate HasRedeemed(pc: OwnerPc) {
    pc.WaitInstall? || pc.CheckInstall? || pc.SetToken? || OwnsToken(pc) || pc.Installed?
  }

  predicate PastActivation(pc: OwnerPc) {
    pc.EndInstall? || pc.Installed? || pc.Finished? || pc.Stale?
  }

  /** The locked cleanup of this login or logout has been left behind. */
  predicate CleanupDone(pc: OwnerPc) {
    pc.Cleaned? || pc.Redeeming? || HasRedeemed(pc) || pc.Finished?
  }

  predicate LoopInside(pc: LoopPc) {
    pc.WriteUser? || pc.Pushing? || pc.Importing? || (pc.Checking? && UnderMutex(pc.site))
  }

  /** Inside the critical section, the whole `current_session` call behind it. */
  predicate LoopPastCheck(pc: LoopPc) {
    pc.WriteUser? || pc.Pushing? || pc.Importing?
  }

  /** Every epoch drawn after `e` still waits for its own cleanup. */
  ghost predicate LaterWait(s: State, e: nat) {
    forall e' | e < e' <= s.value :: e' in s.owners && s.owners[e'].pc == WaitCleanup
  }

  ghost predicate OwnerOk(s: State, e: nat, o: Owner) {
    PcOk(s, e, o) && (OwnerPastCheck(o.pc) ==> LaterWait(s, e))
  }

  /** What a login or logout task has achieved where it stands. */
  predicate PcOk(s: State, e: nat, o: Owner) {
    && 1 <= e <= s.value
    && (OwnerInside(o.pc) <==> s.holder == OwnerHolds(e))
    && (o.pc.Stale? ==> e < s.value)
    && (o.pc.ClearUser? || o.pc.ClearStored? || o.pc.ClearBridge? || o.pc.EndCleanup? ==> s.cells.token == None)
    && (o.pc.ClearStored? || o.pc.ClearBridge? || o.pc.EndCleanup? ==> s.cells.user == None)
    && (o.pc.ClearBridge? || o.pc.EndCleanup? ==> s.cells.stored == None || e in s.unwiped)
    && (o.pc.EndCleanup? && s.hybrid ==> s.cells.bridge == None)
    && (o.pc.Cleaned? || o.pc.Redeeming? ==> o.kind == Login)
    && (HasRedeemed(o.pc) ==> o.kind == Login && e in s.redeemed && s.redeemed[e] == o.pc.tok)
    && (OwnsToken(o.pc) ==> s.cells.token == Some(Owned(o.pc.tok, e)))
    && (e in s.redeemed ==> o.kind == Login && (HasRedeemed(o.pc) || o.pc.Finished? || o.pc.Stale?))
  }

  ghost predicate LoopOk(s: State, e: nat, l: LoopPc) {
    && e <= s.value
    && (e > 0 ==> e in s.owners && s.owners[e].pc.Finished?)
    && (LoopInside(l) <==> s.holder == LoopHolds(e))
    && (LoopPastCheck(l) ==>
          LaterWait(s, e) && s.active == e && s.cells.token.Some? && s.cells.token.value.text == l.tok
          && (e > 0 ==> e in s.redeemed && s.redeemed[e] == l.tok))
    && (l.Checking? && UnderMutex(l.site) ==>
          match l.progress
          case FirstMatch => true
          case LoadActive => LaterWait(s, e)
          case CompareActive(seen) => LaterWait(s, e) && seen == s.active
          case ReadSession(seen) => LaterWait(s, e) && e <= seen == s.active
          case LastMatch(seen) =>
            LaterWait(s, e) && e <= seen == s.active && s.cells.token.Some? && s.cells.token.value.text == l.tok)
  }

  /** The startup session, or a login that has redeemed its ticket and stored the marker. */
  ghost predicate ActivatedLogin(s: State, e: nat) {
    e > 0 ==> e in s.owners && s.owners[e].kind == Login && PastActivation(s.owners[e].pc) && e in s.redeemed
  }

  ghost predicate RequestOk(s: State, r: RequestPc) {
    match r
    case ReadEpoch => true
    case Refused => true
    case ReadUser(e) => e <= s.value
    case ReadCookie(e) => e <= s.value
    case FirstCheck(e) => e <= s.value
    case FirstActive(e) => e <= s.value
    case FirstCompare(e, seen) => e <= s.value
    case Sending(e, first) => e <= first <= s.value
    case FinalCheck(e, first, at) => e <= first <= at <= s.value
    case FinalActive(e, first, at) => e == first == at <= s.value
    case FinalCompare(e, first, at, seen) => e == first == at <= s.value && ActivatedLogin(s, seen)
    case Forwarded(e, first, at, seen, end) => e == first == at <= end == seen <= s.value && ActivatedLogin(s, seen)
  }

  ghost predicate OwnedOk(s: State, c: Option<Owned>) {
    c.Some? && c.value.owner > 0 ==>
      c.value.owner in s.redeemed && s.redeemed[c.value.owner] == c.value.text
  }

  ghost predicate EntryOk(s: State, c: Option<Entry>) {
    c.Some? && c.value.epoch > 0 ==>
      c.value.epoch in s.redeemed && s.redeemed[c.value.epoch] == c.value.session
  }

  /** Every cell is empty or was written by epoch `e`, the stored credential unless the last save of
      that epoch failed altogether. */
  ghost predicate CellsBelongTo(s: State, e: nat) {
    && (s.cells.token.Some? ==> s.cells.token.value.owner == e)
    && (s.cells.stored.Some? ==> s.cells.stored.value.owner == e || e in s.unwiped)
    && (s.cells.user.Some? ==> s.cells.user.value.epoch == e)
    && (s.hybrid && s.cells.bridge.Some? ==> s.cells.bridge.value.epoch == e)
  }

  ghost predicate OwnersOk(s: State) {
    && (forall e :: 1 <= e <= s.value ==> e in s.owners)
    && (forall e | e in s.owners :: OwnerOk(s, e, s.owners[e]))
  }

  ghost predicate LoopsOk(s: State) {
    forall e | e in s.loops :: LoopOk(s, e, s.loops[e])
  }

  ghost predicate RequestsOk(s: State) {
    forall id | id in s.requests :: RequestOk(s, s.requests[id])
  }

  /** The active marker and what it says about the token cell. */
  ghost predicate MarkerOk(s: State) {
    && s.active <= s.value
    && ActivatedLogin(s, s.active)
    && (s.value > 0 && s.active == s.value ==>
          s.value in s.redeemed && s.cells.token == Some(Owned(s.redeemed[s.value], s.value)))
  }

  ghost predicate CellsOk(s: State) {
    && OwnedOk(s, s.cells.token) && OwnedOk(s, s.cells.stored) && EntryOk(s, s.cells.user) && EntryOk(s, s.cells.bridge)
    && (s.value in s.owners && CleanupDone(s.owners[s.value].pc) ==> CellsBelongTo(s, s.value))
  }

  ghost predicate HolderOk(s: State) {
    && (s.holder.OwnerHolds? ==> s.holder.epoch in s.owners)
    && (s.holder.LoopHolds? ==> s.holder.epoch in s.loops)
    && (forall e | e in s.redeemed :: e in s.owners)
  }

  ghost predicate Inv(s: State) {
    OwnersOk(s) && LoopsOk(s) && RequestsOk(s) && MarkerOk(s) && CellsOk(s) && HolderOk(s)
  }

  lemma StartKeepsInv(hybrid: bool, loaded: Option<string>, stored: Option<string>, leftover: Option<string>)
    ensures Inv(Start(hybrid, loaded, stored, leftover))
  {
  }

  // ---- a login or logout is spawned

  lemma SpawnKeepsInv(s: State, kind: Kind)
    requires Inv(s)
    ensures Inv(Spawn(s, kind))
  {
    var t := Spawn(s, kind);
    SpawnKeepsShared(s, kind);
    forall e | e in t.owners ensures OwnerOk(t, e, t.owners[e]) {
      if e in s.owners { SpawnOwner(s, kind, e); }
    }
    forall e | e in t.loops ensures LoopOk(t, e, t.loops[e]) {
      SpawnLoop(s, kind, e);
    }
    forall id | id in t.requests ensures RequestOk(t, t.requests[id]) {
      assert RequestOk(s, s.requests[id]);
    }
  }

  lemma SpawnKeepsShared(s: State, kind: Kind)
    requires Inv(s)
    ensures var t := Spawn(s, kind); MarkerOk(t) && CellsOk(t) && HolderOk(t)
  {
  }

  lemma SpawnLoop(s: State, kind: Kind, e: nat)
    requires e in s.loops && LoopOk(s, e, s.loops[e]) && s.value + 1 !in s.owners
    ensures LoopOk(Spawn(s, kind), e, s.loops[e])
  {
  }

  lemma SpawnOwner(s: State, kind: Kind, e: nat)
    requires e in s.owners && e != s.value + 1 && OwnerOk(s, e, s.owners[e])
    ensures OwnerOk(Spawn(s, kind), e, s.owners[e])
  {
  }

  // ---- a login or logout moves

  /** What one access of the task of epoch `e` at `pc` may do to the shared part. */
  ghost predicate OwnerEffect(s: State, t: State, e: nat, pc: OwnerPc, next: OwnerPc) {
    && t.value == s.value && t.hybrid == s.hybrid && t.requests == s.requests
    && (t.loops == s.loops || (pc.Installed? && next.Finished? && t.loops == s.loops[e := ReadToken]))
    && (t.redeemed == s.redeemed
        || (pc.Redeeming? && next.WaitInstall? && t.redeemed == s.redeemed[e := next.tok]))
    && (pc.Finished? ==> next.Finished?)
    && (PastActivation(pc) ==> PastActivation(next))
    && (CleanupDone(pc) && !next.Stale? ==> CleanupDone(next))
    && (if s.holder == OwnerHolds(e) then !pc.WaitCleanup? && (t.holder == s.holder || t.holder == Nobody)
        else if t.holder == s.holder then next == pc || !pc.WaitCleanup?
        else s.holder == Nobody && t.holder == OwnerHolds(e))
  }

  predicate StoresToken(pc: OwnerPc) {
    pc.ClearStored? || pc.SaveStored?
  }

  predicate Saved(t: State, e: nat, pc: OwnerPc) {
    t.cells.stored == None || (pc.SaveStored? && t.cells.stored == Some(Owned(pc.tok, e)))
  }

  /** The cells change only past the check, and only to nothing or to what this epoch redeemed. */
  ghost predicate CellEffect(s: State, t: State, e: nat, pc: OwnerPc, next: OwnerPc) {
    && (!OwnerPastCheck(pc) ==> t.cells == s.cells && t.active == s.active)
    && (t.cells.token == s.cells.token || (pc.ClearToken? && t.cells.token == None)
        || (pc.SetToken? && t.cells.token == Some(Owned(pc.tok, e))))
    && (if t.cells.stored == s.cells.stored then
          t.unwiped == s.unwiped || (StoresToken(pc) && t.unwiped == s.unwiped + {e})
          || (StoresToken(pc) && t.unwiped == s.unwiped - {e} && Saved(t, e, pc))
        else StoresToken(pc) && t.unwiped == s.unwiped - {e} && Saved(t, e, pc))
    && (t.cells.user == s.cells.user || t.cells.user == None)
    && (t.cells.bridge == s.cells.bridge || t.cells.bridge == None)
    && (t.active == s.active || (pc.StoreActive? && next.EndInstall? && t.active == e))
    && (CleanupDone(next) ==> CleanupDone(pc) || (pc.EndCleanup? && t.cells == s.cells))
  }

  lemma ClearHasEffect(s: State, e: nat, pc: OwnerPc, reply: Reply)
    requires OwnerInside(pc) <==> s.holder == OwnerHolds(e)
    ensures var act := Clear(s, e, pc, reply); OwnerEffect(s, act.shared, e, pc, act.next)
  {
    match pc
    case ClearToken =>
    case ClearUser =>
    case ClearStored =>
    case ClearBridge =>
    case _ =>
  }

  lemma CleanupHasEffect(s: State, e: nat, o: Owner, reply: Reply)
    requires OwnerInside(o.pc) <==> s.holder == OwnerHolds(e)
    ensures var act := Cleanup(s, e, o, reply); OwnerEffect(s, act.shared, e, o.pc, act.next)
  {
    match o.pc
    case WaitCleanup =>
    case CheckCleanup =>
    case EndCleanup =>
    case _ => ClearHasEffect(s, e, o.pc, reply);
  }

  lemma InstallHasEffect(s: State, e: nat, pc: OwnerPc, reply: Reply)
    requires OwnerInside(pc) <==> s.holder == OwnerHolds(e)
    ensures var act := Install(s, e, pc, reply); OwnerEffect(s, act.shared, e, pc, act.next)
  {
  }

  lemma RedeemHasEffect(s: State, e: nat, pc: OwnerPc, reply: Reply)
    requires OwnerInside(pc) <==> s.holder == OwnerHolds(e)
    ensures var act := Redeem(s, e, pc, reply); OwnerEffect(s, act.shared, e, pc, act.next)
  {
  }

  lemma ClearHasCellEffect(s: State, e: nat, pc: OwnerPc, reply: Reply)
    ensures var act := Clear(s, e, pc, reply); CellEffect(s, act.shared, e, pc, act.next)
  {
    match pc
    case ClearToken =>
    case ClearUser =>
    case ClearStored =>
    case ClearBridge =>
    case _ =>
  }

  lemma CleanupHasCellEffect(s: State, e: nat, o: Owner, reply: Reply)
    ensures var act := Cleanup(s, e, o, reply); CellEffect(s, act.shared, e, o.pc, act.next)
  {
    match o.pc
    case WaitCleanup =>
    case CheckCleanup =>
    case EndCleanup =>
    case _ => ClearHasCellEffect(s, e, o.pc, reply);
  }

  lemma LoginHasCellEffect(s: State, e: nat, pc: OwnerPc, reply: Reply)
    ensures var act := Install(s, e, pc, reply); CellEffect(s, act.shared, e, pc, act.next)
    ensures var act := Redeem(s, e, pc, reply); CellEffect(s, act.shared, e, pc, act.next)
  {
  }

  /** A step of the task of epoch `e`: it alone has moved, and only within its effect. */
  ghost predicate OwnerStepped(s: State, t: State, e: nat) {
    && e in s.owners && e in t.owners
    && t.owners == s.owners[e := t.owners[e]] && t.owners[e].kind == s.owners[e].kind
    && (OwnerInside(s.owners[e].pc) <==> s.holder == OwnerHolds(e))
    && OwnerEffect(s, t, e, s.owners[e].pc, t.owners[e].pc)
    && CellEffect(s, t, e, s.owners[e].pc, t.owners[e].pc)
  }

  lemma StepOwnerStepped(s: State, e: nat, reply: Reply)
    requires e in s.owners && (OwnerInside(s.owners[e].pc) <==> s.holder == OwnerHolds(e))
    ensures OwnerStepped(s, StepOwner(s, e, reply), e)
  {
    var o := s.owners[e];
    CleanupHasCellEffect(s, e, o, reply);
    LoginHasCellEffect(s, e, o.pc, reply);
    if InCleanup(o.pc) { CleanupHasEffect(s, e, o, reply); }
    else if InInstall(o.pc) { InstallHasEffect(s, e, o.pc, reply); }
    else { RedeemHasEffect(s, e, o.pc, reply); }
  }

  lemma SteppedWaits(s: State, t: State, e: nat, e': nat)
    requires OwnerStepped(s, t, e) && LaterWait(s, e') && s.holder != Nobody
    ensures LaterWait(t, e')
  {
  }

  lemma OwnerOther(s: State, t: State, e: nat, e': nat)
    requires OwnerStepped(s, t, e) && e' in s.owners && e != e'
    requires OwnerOk(s, e', s.owners[e'])
    ensures OwnerOk(t, e', s.owners[e'])
  {
  }

  lemma OwnerLoop(s: State, t: State, e: nat, e': nat)
    requires OwnerStepped(s, t, e) && e' in s.loops && e' in t.loops && t.loops[e'] == s.loops[e']
    requires LoopOk(s, e', s.loops[e'])
    ensures LoopOk(t, e', s.loops[e'])
  {
  }

  lemma ClearPc(s: State, e: nat, o: Owner, reply: Reply)
    requires PcOk(s, e, o)
    ensures var act := Clear(s, e, o.pc, reply); PcOk(act.shared, e, o.(pc := act.next))
  {
    match o.pc
    case ClearToken =>
    case ClearUser =>
    case ClearStored =>
    case ClearBridge =>
    case _ =>
  }

  lemma CleanupPc(s: State, e: nat, o: Owner, reply: Reply)
    requires PcOk(s, e, o) && InCleanup(o.pc)
    ensures var act := Cleanup(s, e, o, reply); PcOk(act.shared, e, o.(pc := act.next))
  {
    match o.pc
    case WaitCleanup =>
    case CheckCleanup =>
    case EndCleanup =>
    case _ => ClearPc(s, e, o, reply);
  }

  lemma InstallPc(s: State, e: nat, o: Owner, reply: Reply)
    requires PcOk(s, e, o) && InInstall(o.pc)
    ensures var act := Install(s, e, o.pc, reply); PcOk(act.shared, e, o.(pc := act.next))
  {
    match o.pc
    case CheckInstall(_) =>
    case SetToken(_) =>
    case SaveStored(_) =>
    case TestActive(_) =>
    case StoreActive(_) =>
    case EndInstall(_) =>
  }

  lemma RedeemPc(s: State, e: nat, o: Owner, reply: Reply)
    requires PcOk(s, e, o) && !InCleanup(o.pc) && !InInstall(o.pc)
    ensures var act := Redeem(s, e, o.pc, reply); PcOk(act.shared, e, o.(pc := act.next))
  {
    match o.pc
    case Cleaned =>
    case Redeeming =>
    case WaitInstall(_) =>
    case Installed(_) =>
    case _ =>
  }

  lemma ActPc(s: State, e: nat, o: Owner, reply: Reply)
    requires PcOk(s, e, o)
    ensures var act := Act(s, e, o, reply); PcOk(act.shared, e, o.(pc := act.next))
  {
    if InCleanup(o.pc) { CleanupPc(s, e, o, reply); }
    else if InInstall(o.pc) { InstallPc(s, e, o, reply); }
    else { RedeemPc(s, e, o, reply); }
  }

  /** A task gets past its check only in its own epoch. */
  lemma ActChecks(s: State, e: nat, o: Owner, reply: Reply)
    ensures var act := Act(s, e, o, reply); OwnerPastCheck(act.next) ==> OwnerPastCheck(o.pc) || s.value == e
  {
  }

  lemma OwnerSelf(s: State, e: nat, reply: Reply)
    requires e in s.owners && OwnerOk(s, e, s.owners[e])
    ensures var t := StepOwner(s, e, reply); e in t.owners && OwnerOk(t, e, t.owners[e])
  {
    var t := StepOwner(s, e, reply);
    ActPc(s, e, s.owners[e], reply);
    ActChecks(s, e, s.owners[e], reply);
    StepOwnerStepped(s, e, reply);
    if OwnerPastCheck(s.owners[e].pc) { SteppedWaits(s, t, e, e); }
  }

  lemma OwnerKeepsMarker(s: State, t: State, e: nat)
    requires OwnerStepped(s, t, e) && OwnerOk(s, e, s.owners[e]) && MarkerOk(s)
    ensures MarkerOk(t)
  {
  }

  lemma OwnerKeepsCells(s: State, t: State, e: nat)
    requires OwnerStepped(s, t, e) && OwnerOk(s, e, s.owners[e]) && CellsOk(s)
    ensures CellsOk(t)
  {
  }

  lemma OwnerKeepsInv(s: State, e: nat, reply: Reply)
    requires Inv(s) && e in s.owners
    ensures Inv(StepOwner(s, e, reply))
  {
    var t := StepOwner(s, e, reply);
    assert OwnerOk(s, e, s.owners[e]);
    StepOwnerStepped(s, e, reply);
    OwnerKeepsMarker(s, t, e);
    OwnerKeepsCells(s, t, e);
    forall e' | e' in t.owners ensures OwnerOk(t, e', t.owners[e']) {
      if e' != e {
        assert OwnerOk(s, e', s.owners[e']);
        OwnerOther(s, t, e, e');
      } else {
        OwnerSelf(s, e, reply);
      }
    }
    OwnerKeepsLoops(s, t, e);
    forall id | id in t.requests ensures RequestOk(t, t.requests[id]) {
      assert RequestOk(s, s.requests[id]);
    }
  }

  lemma OwnerKeepsLoops(s: State, t: State, e: nat)
    requires OwnerStepped(s, t, e) && OwnerOk(s, e, s.owners[e]) && LoopsOk(s) && HolderOk(s)
    ensures LoopsOk(t)
  {
    forall e' | e' in t.loops ensures LoopOk(t, e', t.loops[e']) {
      if e' in s.loops {
        assert LoopOk(s, e', s.loops[e']);
        OwnerLoop(s, t, e, e');
      }
    }
  }

  // ---- a refresh loop moves

  ghost predicate LoopEffect(s: State, t: State, e: nat, l: LoopPc, next: LoopPc) {
    && t.value == s.value && t.hybrid == s.hybrid && t.active == s.active && t.owners == s.owners
    && t.requests == s.requests && t.redeemed == s.redeemed
    && (if s.holder == LoopHolds(e) then t.holder == s.holder || t.holder == Nobody
        else t.holder == s.holder || (s.holder == Nobody && t.holder == LoopHolds(e)))
    && t.cells.token == s.cells.token && t.cells.stored == s.cells.stored && t.unwiped == s.unwiped
    && (t.cells.user == s.cells.user || (l.WriteUser? && t.cells.user == Some(Entry(l.user, e, l.tok))))
    && (t.cells.bridge == s.cells.bridge || (l.Pushing? && t.cells.bridge == Some(Entry(l.cap, e, l.tok))))
  }

  lemma CheckHasEffect(s: State, e: nat, tok: string, site: Site, progress: Progress)
    requires UnderMutex(site) <==> s.holder == LoopHolds(e)
    ensures var act := Check(s, e, tok, site, progress);
            LoopEffect(s, act.shared, e, Checking(tok, site, progress), act.next)
  {
  }

  lemma ProceedHasEffect(s: State, e: nat, l: LoopPc, reply: Reply)
    requires !LoopInside(l) && s.holder != LoopHolds(e)
    ensures var act := Proceed(s, e, l, reply); LoopEffect(s, act.shared, e, l, act.next)
  {
  }

  lemma PublishHasEffect(s: State, e: nat, l: LoopPc, reply: Reply)
    requires LoopPastCheck(l) && s.holder == LoopHolds(e)
    ensures var act := Publish(s, e, l, reply); LoopEffect(s, act.shared, e, l, act.next)
  {
  }

  ghost predicate LoopStepped(s: State, t: State, e: nat) {
    && e in s.loops && e in t.loops
    && t.loops == s.loops[e := t.loops[e]]
    && (LoopInside(s.loops[e]) <==> s.holder == LoopHolds(e))
    && LoopEffect(s, t, e, s.loops[e], t.loops[e])
  }

  lemma StepLoopStepped(s: State, e: nat, reply: Reply)
    requires e in s.loops && (LoopInside(s.loops[e]) <==> s.holder == LoopHolds(e))
    ensures LoopStepped(s, StepLoop(s, e, reply), e)
  {
    var l := s.loops[e];
    if l.Checking? { CheckHasEffect(s, e, l.tok, l.site, l.progress); }
    else if LoopPastCheck(l) { PublishHasEffect(s, e, l, reply); }
    else { ProceedHasEffect(s, e, l, reply); }
  }

  lemma LoopOther(s: State, t: State, e: nat, e': nat)
    requires LoopStepped(s, t, e) && e' in s.loops && e != e' && LoopOk(s, e', s.loops[e'])
    ensures LoopOk(t, e', s.loops[e'])
  {
  }

  lemma LoopOwner(s: State, t: State, e: nat, e': nat)
    requires LoopStepped(s, t, e) && LoopOk(s, e, s.loops[e])
    requires e' in s.owners && OwnerOk(s, e', s.owners[e'])
    ensures OwnerOk(t, e', s.owners[e'])
  {
  }

  lemma CheckSelf(s: State, e: nat, reply: Reply)
    requires e in s.loops && LoopOk(s, e, s.loops[e]) && s.loops[e].Checking? && MarkerOk(s)
    ensures var t := StepLoop(s, e, reply); e in t.loops && LoopOk(t, e, t.loops[e])
  {
    var t := StepLoop(s, e, reply);
    StepLoopStepped(s, e, reply);
    assert LaterWait(s, e) ==> LaterWait(t, e);
    match s.loops[e].progress
    case FirstMatch =>
    case LoadActive =>
    case CompareActive(_) =>
    case ReadSession(_) =>
    case LastMatch(_) =>
  }

  lemma ProceedSelf(s: State, e: nat, reply: Reply)
    requires e in s.loops && LoopOk(s, e, s.loops[e]) && !LoopInside(s.loops[e]) && !s.loops[e].Checking?
    ensures var t := StepLoop(s, e, reply); e in t.loops && LoopOk(t, e, t.loops[e])
  {
    StepLoopStepped(s, e, reply);
  }

  lemma PublishSelf(s: State, e: nat, reply: Reply)
    requires e in s.loops && LoopOk(s, e, s.loops[e]) && LoopPastCheck(s.loops[e])
    ensures var t := StepLoop(s, e, reply); e in t.loops && LoopOk(t, e, t.loops[e])
  {
    StepLoopStepped(s, e, reply);
  }

  /** A write past the check belongs to the current session, or every later task still waits. */
  lemma LoopKeepsCells(s: State, t: State, e: nat)
    requires LoopStepped(s, t, e) && LoopOk(s, e, s.loops[e]) && CellsOk(s) && MarkerOk(s)
    ensures CellsOk(t) && MarkerOk(t)
  {
  }

  lemma LoopKeepsInv(s: State, e: nat, reply: Reply)
    requires Inv(s) && e in s.loops
    ensures Inv(StepLoop(s, e, reply))
  {
    var t := StepLoop(s, e, reply);
    var l := s.loops[e];
    assert LoopOk(s, e, l);
    StepLoopStepped(s, e, reply);
    LoopKeepsCells(s, t, e);
    forall e' | e' in t.loops ensures LoopOk(t, e', t.loops[e']) {
      if e' != e {
        assert LoopOk(s, e', s.loops[e']);
        LoopOther(s, t, e, e');
      } else if l.Checking? {
        CheckSelf(s, e, reply);
      } else if LoopPastCheck(l) {
        PublishSelf(s, e, reply);
      } else {
        ProceedSelf(s, e, reply);
      }
    }
    forall e' | e' in t.owners ensures OwnerOk(t, e', t.owners[e']) {
      assert OwnerOk(s, e', s.owners[e']);
      LoopOwner(s, t, e, e');
    }
    forall id | id in t.requests ensures RequestOk(t, t.requests[id]) {
      assert RequestOk(s, s.requests[id]);
    }
  }

  // ---- a proxied request moves, and any event at all

  lemma RequestsAlone(s: State, t: State)
    requires Inv(s) && t == s.(requests := t.requests) && RequestsOk(t)
    ensures Inv(t)
  {
    forall e | e in t.owners ensures OwnerOk(t, e, t.owners[e]) {
      assert OwnerOk(s, e, s.owners[e]);
      assert LaterWait(s, e) ==> LaterWait(t, e);
    }
    forall e | e in t.loops ensures LoopOk(t, e, t.loops[e]) {
      assert LoopOk(s, e, s.loops[e]);
      assert LaterWait(s, e) ==> LaterWait(t, e);
    }
  }

  lemma StepKeepsInv(s: State, event: Event)
    requires Inv(s)
    ensures Inv(Step(s, event))
  {
    match event
    case StartLogin => SpawnKeepsInv(s, Login);
    case StartLogout => SpawnKeepsInv(s, Logout);
    case OwnerMoves(e, reply) => if e in s.owners { OwnerKeepsInv(s, e, reply); }
    case LoopMoves(e, reply) => if e in s.loops { LoopKeepsInv(s, e, reply); }
    case RequestArrives(id) => RequestsAlone(s, Step(s, event));
    case RequestMoves(id, reply) => RequestKeepsInv(s, id, reply);
  }

  lemma RequestKeepsInv(s: State, id: nat, reply: Reply)
    requires Inv(s)
    ensures Inv(Step(s, RequestMoves(id, reply)))
  {
    if id in s.requests {
      assert RequestOk(s, s.requests[id]);
      RequestsAlone(s, Step(s, RequestMoves(id, reply)));
    }
  }

  lemma {:induction false} RunKeepsInv(s: State, events: seq<Event>)
    requires Inv(s)
    ensures Inv(Run(s, events))
    decreases |events|
  {
    if events != [] {
      StepKeepsInv(s, events[0]);
      RunKeepsInv(Step(s, events[0]), events[1..]);
    }
  }

  // ---------------------------------------------------------------- what every run guarantees

  /** No task of another epoch is past its check inside the critical section. */
  ghost predicate OnlyCurrentInside(s: State) {
    && (forall e | e in s.owners && OwnerPastCheck(s.owners[e].pc) :: e == s.value)
    && (forall e | e in s.loops && LoopPastCheck(s.loops[e]) :: e == s.value)
  }

  /** Once the locked cleanup of the current epoch is over, each cell is empty or belongs to that
      epoch, and no older task can still write one. */
  lemma SessionIsolation(hybrid: bool, loaded: Option<string>, stored: Option<string>,
                         leftover: Option<string>, events: seq<Event>)
    ensures var s := Run(Start(hybrid, loaded, stored, leftover), events);
            s.value > 0 ==>
              s.value in s.owners
              && (CleanupDone(s.owners[s.value].pc) ==> CellsBelongTo(s, s.value) && OnlyCurrentInside(s))
  {
    var s := Run(Start(hybrid, loaded, stored, leftover), events);
    StartKeepsInv(hybrid, loaded, stored, leftover);
    RunKeepsInv(Start(hybrid, loaded, stored, leftover), events);
    forall e | e in s.owners && OwnerPastCheck(s.owners[e].pc) && !s.owners[s.value].pc.WaitCleanup?
      ensures e == s.value
    {
      assert OwnerOk(s, e, s.owners[e]);
    }
    forall e | e in s.loops && LoopPastCheck(s.loops[e]) && s.value > 0 && !s.owners[s.value].pc.WaitCleanup?
      ensures e == s.value
    {
      assert LoopOk(s, e, s.loops[e]);
    }
  }

  /** After a logout has cleaned up and until the next login or logout, nothing is left and
      nothing comes back: neither token, nor stored credential, nor bridge identity, nor bridge. */
  lemma LogoutLeavesNothing(hybrid: bool, loaded: Option<string>, stored: Option<string>,
                            leftover: Option<string>, events: seq<Event>)
    ensures var s := Run(Start(hybrid, loaded, stored, leftover), events);
            s.value in s.owners && s.owners[s.value].kind == Logout && s.owners[s.value].pc.Finished? ==>
              s.cells.token == None && (s.cells.stored == None || s.value in s.unwiped) && s.cells.user == None
              && (s.hybrid ==> s.cells.bridge == None)
  {
    var s := Run(Start(hybrid, loaded, stored, leftover), events);
    StartKeepsInv(hybrid, loaded, stored, leftover);
    RunKeepsInv(Start(hybrid, loaded, stored, leftover), events);
    if s.value in s.owners { assert OwnerOk(s, s.value, s.owners[s.value]); }
  }

  /** The active marker never runs ahead of the counter; where the two agree, the token cell holds
      what the login of that very epoch redeemed. A refresh loop that may write holds the token
      its own epoch redeemed, and the session it writes for is the active one. */
  lemma ActiveOwnership(hybrid: bool, loaded: Option<string>, stored: Option<string>,
                        leftover: Option<string>, events: seq<Event>)
    ensures var s := Run(Start(hybrid, loaded, stored, leftover), events);
            && s.active <= s.value
            && (s.value > 0 && s.active == s.value ==>
                  s.value in s.redeemed && s.value in s.owners && s.owners[s.value].kind == Login
                  && s.cells.token == Some(Owned(s.redeemed[s.value], s.value)))
            && (forall e | e in s.loops && LoopPastCheck(s.loops[e]) ::
                  s.active == e && (e > 0 ==> e in s.redeemed && s.redeemed[e] == s.loops[e].tok))
            && OwnedOk(s, s.cells.token) && OwnedOk(s, s.cells.stored)
            && EntryOk(s, s.cells.user) && EntryOk(s, s.cells.bridge)
  {
    var s := Run(Start(hybrid, loaded, stored, leftover), events);
    StartKeepsInv(hybrid, loaded, stored, leftover);
    RunKeepsInv(Start(hybrid, loaded, stored, leftover), events);
    if s.value in s.owners { assert OwnerOk(s, s.value, s.owners[s.value]); }
    forall e | e in s.loops && LoopPastCheck(s.loops[e])
      ensures s.active == e && (e > 0 ==> e in s.redeemed && s.redeemed[e] == s.loops[e].tok)
    {
      assert LoopOk(s, e, s.loops[e]);
    }
  }

  /** A forwarded answer arrived in the epoch the request had read first, and that epoch was the
      active one before the request left: no login and no logout started in between. */
  lemma ForwardedInOneEpoch(hybrid: bool, loaded: Option<string>, stored: Option<string>,
                            leftover: Option<string>, events: seq<Event>)
    ensures var s := Run(Start(hybrid, loaded, stored, leftover), events);
            forall id | id in s.requests && s.requests[id].Forwarded? ::
              s.requests[id].e == s.requests[id].first == s.requests[id].at
  {
    var s := Run(Start(hybrid, loaded, stored, leftover), events);
    StartKeepsInv(hybrid, loaded, stored, leftover);
    RunKeepsInv(Start(hybrid, loaded, stored, leftover), events);
    forall id | id in s.requests && s.requests[id].Forwarded?
      ensures s.requests[id].e == s.requests[id].first == s.requests[id].at
    {
      assert RequestOk(s, s.requests[id]);
    }
  }

  /** Counter and marker never fall, and what an epoch redeemed is never exchanged. */
  ghost predicate Grows(s: State, t: State) {
    && s.value <= t.value && s.active <= t.active
    && (forall e | e in s.redeemed :: e in t.redeemed && t.redeemed[e] == s.redeemed[e])
  }

  lemma StepGrows(s: State, event: Event)
    requires Inv(s)
    ensures Grows(s, Step(s, event))
  {
    if event.OwnerMoves? && event.epoch in s.owners {
      assert OwnerOk(s, event.epoch, s.owners[event.epoch]);
      StepOwnerStepped(s, event.epoch, event.reply);
      if s.active > event.epoch { assert s.owners[s.active].pc != WaitCleanup; }
    } else if event.LoopMoves? && event.epoch in s.loops {
      assert LoopOk(s, event.epoch, s.loops[event.epoch]);
      StepLoopStepped(s, event.epoch, event.reply);
    }
  }

  lemma {:induction false} RunGrows(s: State, events: seq<Event>)
    requires Inv(s)
    ensures Grows(s, Run(s, events))
    decreases |events|
  {
    if events != [] {
      StepKeepsInv(s, events[0]);
      StepGrows(s, events[0]);
      RunGrows(Step(s, events[0]), events[1..]);
    }
  }
}
