/** Whole lives of a local database: old releases that know nothing of sequence numbers and new
    releases that allocate them take turns, rows are deleted, and every start of a new release
    runs the repair first. */
module ChatRuns {
  import opened Wrappers
  import opened ChatTables
  import ChatRepair

  /** `handed` collects every (chat, number) pair ever handed out, by a cursor or by the repair. */
  datatype State = State(upgraded: bool, sessions: Sessions, messages: Messages, handed: set<(int, int)>)

  datatype Event =
    | NewSession(chat: int)
    | Reserve(chat: int, count: nat)                              // new release
    | Insert(id: int, chat: int, created: int, number: int)       // new release, a reserved number
    | OldInsert(id: int, chat: int, created: int)                 // old release, no number
    | Delete(id: int)
    | Startup                                                     // of a new release

  /** The first of the numbers `reserve_chat_sequences` gives out. */
  ghost function FirstReserved(s: State, chat: int): int
    requires chat in s.sessions
  {
    var maxNext := MaxSeq(s.messages, chat) + 1;
    if s.sessions[chat] >= maxNext then s.sessions[chat] else maxNext
  }

  ghost function Range(chat: int, first: int, count: nat): set<(int, int)> {
    set n | first <= n < first + count :: (chat, n)
  }

  ghost function Backfilled(s: State): set<(int, int)> {
    set id | id in Unnumbered(s.messages) :: (s.messages[id].chat, Due(s.sessions, s.messages, id))
  }

  /** The numbers an event hands out. */
  ghost function Issued(s: State, e: Event): set<(int, int)> {
    match e
    case Reserve(chat, count) =>
      if s.upgraded && chat in s.sessions && count >= 1 then Range(chat, FirstReserved(s, chat), count) else {}
    case Startup => Backfilled(s)
    case _ => {}
  }

  /** The unique index and the foreign key let this row in. */
  ghost predicate Insertable(s: State, id: int, chat: int, number: int) {
    && id !in s.messages && chat in s.sessions && (chat, number) in s.handed
    && number !in Assigned(s.messages, chat)
  }

  /** An event whose statement fails, or which the release at hand cannot issue, changes nothing. */
  ghost function Step(s: State, e: Event): State {
    var t := s.(handed := s.handed + Issued(s, e));
    match e
    case NewSession(chat) => if chat in s.sessions then t else t.(sessions := s.sessions[chat := 1])
    case Reserve(chat, count) =>
      if s.upgraded && chat in s.sessions && count >= 1
      then t.(sessions := s.sessions[chat := FirstReserved(s, chat) + count]) else t
    case Insert(id, chat, created, number) =>
      if s.upgraded && Insertable(s, id, chat, number)
      then t.(messages := s.messages[id := Message(chat, created, Some(number))]) else t
    case OldInsert(id, chat, created) =>
      if id !in s.messages && chat in s.sessions
      then t.(messages := s.messages[id := Message(chat, created, None)]) else t
    case Delete(id) => t.(messages := s.messages - {id})
    case Startup =>
      var numbered := Numbered(s.sessions, s.messages);
      t.(upgraded := true, messages := numbered, sessions := Advanced(s.sessions, numbered))
  }

  ghost function Run(s: State, events: seq<Event>): State
    decreases |events|
  {
    if events == [] then s else Run(Step(s, events[0]), events[1..])
  }

  /** A database no new release has touched. */
  ghost predicate Legacy(s: State) {
    && !s.upgraded && s.handed == {}
    && (forall c | c in s.sessions :: s.sessions[c] == 1)
    && (forall id | id in s.messages :: s.messages[id].number == None && s.messages[id].chat in s.sessions)
  }

  ghost predicate Inv(s: State) {
    && SeqsUnique(s.messages)
    && (forall id | id in s.messages :: s.messages[id].chat in s.sessions)
    && (forall id | id in s.messages && s.messages[id].number.Some? ::
          (s.messages[id].chat, s.messages[id].number.value) in s.handed)
    && (forall p | p in s.handed :: p.0 in s.sessions && 1 <= p.1 < s.sessions[p.0])
    && (forall c | c in s.sessions :: s.sessions[c] >= 1)
    && (!s.upgraded ==> Defaults(s))
  }

  /** What the columns contain when they have just been added. */
  ghost predicate Defaults(s: State) {
    && (forall c | c in s.sessions :: s.sessions[c] == 1)
    && (forall id | id in s.messages :: s.messages[id].number == None)
  }

  /** The event `Startup` is what `Database.Reconcile` does, columns missing or not: it succeeds
      in every state a run can reach, and leaves these two tables. */
  lemma StartupIsReconcile(s: State)
    requires Inv(s)
    ensures var s0 := ChatRepair.WithCursor(s.sessions, s.upgraded);
            var m0 := ChatRepair.WithNumber(s.messages, s.upgraded);
            && SeqsUnique(m0)
            && Step(s, Startup).messages == Numbered(s0, m0)
            && Step(s, Startup).sessions == Advanced(s0, Numbered(s0, m0))
  {
    DefaultColumns(s);
  }

  /** Adding the columns to tables that have never had them is adding their defaults. */
  lemma DefaultColumns(s: State)
    requires Inv(s)
    ensures ChatRepair.WithCursor(s.sessions, s.upgraded) == s.sessions
    ensures ChatRepair.WithNumber(s.messages, s.upgraded) == s.messages
  {
    if !s.upgraded {
      var m := ChatRepair.WithNumber(s.messages, s.upgraded);
      forall id | id in s.messages ensures m[id] == s.messages[id] {
        assert s.messages[id].number == None;
      }
      assert m.Keys == s.messages.Keys;
      assert m == s.messages;
      var c := ChatRepair.WithCursor(s.sessions, s.upgraded);
      assert forall k | k in s.sessions :: c[k] == s.sessions[k];
      assert c.Keys == s.sessions.Keys;
      assert c == s.sessions;
    }
  }

  lemma FirstReservedIsFree(s: State, chat: int)
    requires Inv(s) && chat in s.sessions
    ensures FirstReserved(s, chat) == s.sessions[chat]
  {
  }

  /** No number is handed out twice. */
  lemma HandedOutOnce(s: State, e: Event)
    requires Inv(s)
    ensures Issued(s, e) !! s.handed
  {
  }

  lemma StartupKeepsInv(s: State)
    requires Inv(s)
    ensures Inv(Step(s, Startup))
  {
    var t := Step(s, Startup);
    NumberedUniqueIff(s.sessions, s.messages);
    forall id | id in t.messages ensures (t.messages[id].chat, t.messages[id].number.value) in t.handed {
      if s.messages[id].number == None {
        assert id in Unnumbered(s.messages);
        assert (s.messages[id].chat, Due(s.sessions, s.messages, id)) in Backfilled(s);
      }
    }
    forall p | p in t.handed ensures p.0 in t.sessions && 1 <= p.1 < t.sessions[p.0] {
      if p in s.handed {
        CursorsAhead(s.sessions, s.messages, p.0);
      } else {
        var id :| id in Unnumbered(s.messages) && p == (s.messages[id].chat, Due(s.sessions, s.messages, id));
        BackfillIsFresh(s.sessions, s.messages, id);
        CursorsAhead(s.sessions, s.messages, p.0);
        assert p.1 in Assigned(t.messages, p.0) by { assert t.messages[id].number == Some(p.1); }
      }
    }
    forall c | c in t.sessions ensures t.sessions[c] >= 1 {
      CursorsAhead(s.sessions, s.messages, c);
    }
  }

  lemma StepKeepsInv(s: State, e: Event)
    requires Inv(s)
    ensures Inv(Step(s, e))
  {
    match e
    case Startup => StartupKeepsInv(s);
    case Insert(_, _, _, _) => InsertKeepsInv(s, e);
    case Reserve(chat, count) => if chat in s.sessions { FirstReservedIsFree(s, chat); }
    case _ =>
  }

  lemma InsertKeepsInv(s: State, e: Event)
    requires Inv(s) && e.Insert?
    ensures Inv(Step(s, e))
  {
  }

  lemma {:induction false} RunKeepsInv(s: State, events: seq<Event>)
    requires Inv(s)
    ensures Inv(Run(s, events))
    decreases |events|
  {
    if events != [] {
      StepKeepsInv(s, events[0]);
      RunKeepsInv(Step(s, events[0]), events[1..]);
    }
  }

  ghost predicate CursorsRise(s: Sessions, t: Sessions) {
    forall c | c in s :: c in t && s[c] <= t[c]
  }

  ghost predicate RowStays(s: Messages, t: Messages, id: int) {
    id in s ==>
      && id in t && t[id].chat == s[id].chat && t[id].created == s[id].created
      && (s[id].number.Some? ==> t[id].number == s[id].number)
  }

  /** Cursors never fall, and a row that is not deleted stays as it is, except that it gets a number if
      it has none. */
  lemma StepKeepsNumbers(s: State, e: Event, id: int)
    requires Inv(s) && e != Delete(id)
    ensures CursorsRise(s.sessions, Step(s, e).sessions) && RowStays(s.messages, Step(s, e).messages, id)
  {
  }

  /** Over any run, too. */
  lemma {:induction false} RunKeepsNumbers(s: State, events: seq<Event>, id: int)
    requires Inv(s) && Delete(id) !in events
    ensures CursorsRise(s.sessions, Run(s, events).sessions) && RowStays(s.messages, Run(s, events).messages, id)
    decreases |events|
  {
    if events != [] {
      assert events[0] in events && forall x | x in events[1..] :: x in events;
      StepKeepsNumbers(s, events[0], id);
      StepKeepsInv(s, events[0]);
      RunKeepsNumbers(Step(s, events[0]), events[1..], id);
    }
  }

  lemma {:induction false} RunKeepsHanded(s: State, events: seq<Event>)
    ensures s.handed <= Run(s, events).handed
    decreases |events|
  {
    if events != [] { RunKeepsHanded(Step(s, events[0]), events[1..]); }
  }

  /** Over any run: what one event hands out no later one does. */
  lemma NeverHandedOutAgain(s: State, before: seq<Event>, e: Event, between: seq<Event>, later: Event)
    requires Inv(s)
    ensures var t := Run(s, before); Issued(t, e) !! Issued(Run(Step(t, e), between), later)
  {
    var t := Run(s, before);
    var u := Step(t, e);
    RunKeepsInv(s, before);
    StepKeepsInv(t, e);
    RunKeepsInv(u, between);
    RunKeepsHanded(u, between);
    assert Issued(t, e) <= u.handed;
    HandedOutOnce(Run(u, between), later);
  }

  /** Until the first start of a new release nothing has a number. */
  lemma {:induction false} LegacyStays(s: State, events: seq<Event>)
    requires Legacy(s) && Startup !in events
    ensures Legacy(Run(s, events))
    decreases |events|
  {
    if events != [] {
      assert events[0] in events && forall x | x in events[1..] :: x in events;
      LegacyStays(Step(s, events[0]), events[1..]);
    }
  }

  /** The first start numbers the k rows of every chat from 1 to k, in order of creation, and the next
      number to be reserved is k + 1. */
  lemma FirstStartup(start: State, events: seq<Event>, chat: int)
    requires Legacy(start) && Startup !in events
    ensures var s := Run(start, events); var t := Step(s, Startup); var k := |RowsOf(s.messages, chat)|;
            chat in s.sessions ==>
              && (forall id | id in RowsOf(s.messages, chat) ::
                    t.messages[id].number == Some(1 + |Earlier(s.messages, id)|))
              && (forall n :: n in Assigned(t.messages, chat) <==> 1 <= n <= k)
              && t.sessions[chat] == k + 1 && FirstReserved(t, chat) == k + 1
  {
    LegacyStays(start, events);
    var s := Run(start, events);
    if chat in s.sessions {
      FreshNumbers(s.sessions, s.messages, chat);
      NextIsCursor(Step(s, Startup), chat, |RowsOf(s.messages, chat)|);
    }
  }

  lemma NextIsCursor(t: State, chat: int, k: nat)
    requires chat in t.sessions && t.sessions[chat] == k + 1
    requires forall n :: n in Assigned(t.messages, chat) <==> 1 <= n <= k
    ensures FirstReserved(t, chat) == k + 1
  {
    TopOfRange(Assigned(t.messages, chat), k);
  }

  /** Chats are opened with their cursor at 1, rows of old releases come without a number, and what is
      deleted is gone. */
  lemma OldReleasesWrite(s: State, chat: int, id: int, created: int)
    requires chat !in s.sessions && id !in s.messages
    ensures var t := Step(s, NewSession(chat)); var u := Step(t, OldInsert(id, chat, created));
            && t.sessions == s.sessions[chat := 1] && u.messages == s.messages[id := Message(chat, created, None)]
            && Step(u, Delete(id)).messages == s.messages
  {
    var t := Step(s, NewSession(chat));
    assert s.messages[id := Message(chat, created, None)] - {id} == s.messages;
  }

  /** What a new release has reserved it can use: each number once. */
  lemma ReservedCanBeInserted(s: State, chat: int, count: nat, n: int, id: int, created: int)
    requires Inv(s) && s.upgraded && chat in s.sessions && id !in s.messages
    requires FirstReserved(s, chat) <= n < FirstReserved(s, chat) + count
    ensures var t := Step(Step(s, Reserve(chat, count)), Insert(id, chat, created, n));
            && t.messages == s.messages[id := Message(chat, created, Some(n))]
            && t.sessions[chat] == FirstReserved(s, chat) + count
            && (chat, n) !in s.handed
  {
    FirstReservedIsFree(s, chat);
    AssignedIsHanded(s, chat, n);
  }

  lemma AssignedIsHanded(s: State, chat: int, n: int)
    requires Inv(s)
    ensures n in Assigned(s.messages, chat) ==> (chat, n) in s.handed
  {
  }

  /** After any life of the database that ends with the start of a new release: every row has a
      number, no two rows of a chat share one, every number ever handed out lies below the cursor
      of its chat, and starting once more changes nothing. */
  lemma RepairedAfterEveryStartup(start: State, events: seq<Event>)
    requires Legacy(start)
    ensures var s := Run(start, events); var t := Step(s, Startup);
            && Unnumbered(t.messages) == {} && SeqsUnique(t.messages)
            && (forall p | p in t.handed :: p.0 in t.sessions && p.1 < t.sessions[p.0])
            && (forall id | id in t.messages :: (t.messages[id].chat, t.messages[id].number.value) in t.handed)
            && Backfilled(s) !! s.handed
            && Step(t, Startup) == t
  {
    var s := Run(start, events);
    RunKeepsInv(start, events);
    var t := Step(s, Startup);
    StepKeepsInv(s, Startup);
    HandedOutOnce(s, Startup);
    RepairIsIdempotent(s.sessions, s.messages);
    assert Unnumbered(t.messages) == {};
    assert Backfilled(t) == {};
    assert Issued(t, Startup) == {};
  }
}
