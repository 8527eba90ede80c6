/** The two chat tables of the local database and what repairing them means.

    Identifiers and timestamps are numbers here: only equality and the collation order of the
    texts they stand for matter. Everything in this module is specification; the repair itself is
    in `ChatRepair`. */
module ChatTables {
  import opened Wrappers

  /** A row of `chat_messages`, without its primary key. */
  datatype Message = Message(chat: int, created: int, number: Option<int>)

  type Messages = map<int, Message>     // message_id -> row
  type Sessions = map<int, int>         // chat_id -> next_message_seq

  ghost predicate InChat(msgs: Messages, id: int, chat: int) {
    id in msgs && msgs[id].chat == chat
  }

  // ---------------------------------------------------------------- MAX(chat_seq)

  ghost function Assigned(msgs: Messages, chat: int): set<int> {
    set id | id in msgs && msgs[id].chat == chat && msgs[id].number.Some? :: msgs[id].number.value
  }

  ghost predicate IsTop(s: set<int>, m: int) {
    if s == {} then m == 0 else m in s && forall x | x in s :: x <= m
  }

  /** `COALESCE(MAX(..), 0)` */
  ghost function Top(s: set<int>): (m: int)
    ensures IsTop(s, m)
  {
    if s == {} then 0
    else
      TopExists(s);
      var m :| m in s && forall x | x in s :: x <= m;
      m
  }

  lemma HasElement(s: set<int>)
    ensures s == {} || exists x :: x in s
  {
    if !exists x :: x in s { assert s == {}; }
  }

  lemma {:induction false} TopExists(s: set<int>)
    requires s != {}
    ensures exists m :: m in s && forall x | x in s :: x <= m
    decreases |s|
  {
    HasElement(s);
    var x :| x in s;
    var rest := s - {x};
    if rest == {} {
      assert s == {x};
    } else {
      TopExists(rest);
      var m :| m in rest && forall y | y in rest :: y <= m;
      assert s == rest + {x};
      var top := if m < x then x else m;
      assert top in s && forall y | y in s :: y <= top;
    }
  }

  ghost function MaxSeq(msgs: Messages, chat: int): int {
    Top(Assigned(msgs, chat))
  }

  /** The last number of a chat that is taken: by a row, or by a cursor that has gone further. */
  ghost function Base(sessions: Sessions, msgs: Messages, chat: int): int {
    var top := MaxSeq(msgs, chat);
    if chat in sessions && top < Cursor(sessions[chat]) - 1 then Cursor(sessions[chat]) - 1 else top
  }

  /** `next_message_seq or 1` */
  function Cursor(next: int): int {
    if next == 0 then 1 else next
  }

  // ---------------------------------------------------------------- rows without a number

  ghost function Unnumbered(msgs: Messages): set<int> {
    set id | id in msgs && msgs[id].number == None
  }

  /** `ORDER BY created_at, message_id` */
  predicate Before(msgs: Messages, a: int, b: int)
    requires a in msgs && b in msgs
  {
    msgs[a].created < msgs[b].created || (msgs[a].created == msgs[b].created && a < b)
  }

  /** `ORDER BY chat_id, created_at, message_id` */
  predicate SortsBefore(msgs: Messages, a: int, b: int)
    requires a in msgs && b in msgs
  {
    msgs[a].chat < msgs[b].chat || (msgs[a].chat == msgs[b].chat && Before(msgs, a, b))
  }

  /** The unnumbered rows of the same chat that come first. */
  ghost function Earlier(msgs: Messages, id: int): set<int>
    requires id in msgs
  {
    set x | x in Unnumbered(msgs) && msgs[x].chat == msgs[id].chat && Before(msgs, x, id)
  }

  /** The number the repair owes a row: its own, or the next free one in order of appearance. */
  ghost function Due(sessions: Sessions, msgs: Messages, id: int): int
    requires id in msgs
  {
    if msgs[id].number.Some? then msgs[id].number.value
    else Base(sessions, msgs, msgs[id].chat) + 1 + |Earlier(msgs, id)|
  }

  ghost function Numbered(sessions: Sessions, msgs: Messages): Messages {
    map id | id in msgs :: msgs[id].(number := Some(Due(sessions, msgs, id)))
  }

  /** The cursors after the repair, computed over the numbered rows. */
  ghost function Advanced(sessions: Sessions, numbered: Messages): Sessions {
    map c | c in sessions ::
      var least := if Assigned(numbered, c) == {} then 1 else MaxSeq(numbered, c) + 1;
      if sessions[c] > least then sessions[c] else least
  }

  // ---------------------------------------------------------------- facts

  ghost predicate SeqsUnique(msgs: Messages) {
    forall a, b | a in msgs && b in msgs && a != b && msgs[a].chat == msgs[b].chat && msgs[a].number.Some? ::
      msgs[a].number != msgs[b].number
  }

  lemma AssignedBelowBase(sessions: Sessions, msgs: Messages, id: int)
    requires id in msgs && msgs[id].number.Some?
    ensures msgs[id].number.value <= Base(sessions, msgs, msgs[id].chat)
  {
    assert msgs[id].number.value in Assigned(msgs, msgs[id].chat);
  }

  lemma EarlierGrows(msgs: Messages, a: int, b: int)
    requires a in Unnumbered(msgs) && b in Unnumbered(msgs) && msgs[a].chat == msgs[b].chat && Before(msgs, a, b)
    ensures |Earlier(msgs, a)| < |Earlier(msgs, b)|
  {
    assert Earlier(msgs, a) + {a} <= Earlier(msgs, b);
    SubsetSize(Earlier(msgs, a) + {a}, Earlier(msgs, b));
  }

  lemma SubsetSize(a: set<int>, b: set<int>)
    requires a <= b
    ensures |a| <= |b|
  {
    assert b == a + (b - a);
  }

  /** The repair leaves no two rows of a chat with one number exactly when the numbers that were
      there before were already distinct. */
  lemma NumberedUniqueIff(sessions: Sessions, msgs: Messages)
    ensures SeqsUnique(Numbered(sessions, msgs)) <==> SeqsUnique(msgs)
  {
    var t := Numbered(sessions, msgs);
    if SeqsUnique(msgs) {
      forall a, b | a in t && b in t && a != b && t[a].chat == t[b].chat ensures t[a].number != t[b].number {
        DueDiffers(sessions, msgs, a, b);
      }
    }
    if SeqsUnique(t) {
      forall a, b | a in msgs && b in msgs && a != b && msgs[a].chat == msgs[b].chat && msgs[a].number.Some?
        ensures msgs[a].number != msgs[b].number
      {
        assert t[a].number != t[b].number;
      }
    }
  }

  lemma DueDiffers(sessions: Sessions, msgs: Messages, a: int, b: int)
    requires SeqsUnique(msgs) && a in msgs && b in msgs && a != b && msgs[a].chat == msgs[b].chat
    ensures Due(sessions, msgs, a) != Due(sessions, msgs, b)
  {
    if msgs[a].number.Some? && msgs[b].number.Some? {
    } else if msgs[a].number.Some? {
      AssignedBelowBase(sessions, msgs, a);
    } else if msgs[b].number.Some? {
      AssignedBelowBase(sessions, msgs, b);
    } else if Before(msgs, a, b) {
      EarlierGrows(msgs, a, b);
    } else {
      EarlierGrows(msgs, b, a);
    }
  }

  /** A backfilled number lies above every number in use and every number the cursor has passed. */
  lemma BackfillIsFresh(sessions: Sessions, msgs: Messages, id: int)
    requires id in Unnumbered(msgs)
    ensures forall x | x in Assigned(msgs, msgs[id].chat) :: x < Due(sessions, msgs, id)
    ensures msgs[id].chat in sessions ==> Due(sessions, msgs, id) >= Cursor(sessions[msgs[id].chat])
  {
  }

  /** A number is free in a chat: it exceeds every number in use, or is at least 1 where there is none,
      and no cursor has passed it. */
  ghost predicate Free(sessions: Sessions, msgs: Messages, chat: int, n: int) {
    && (if Assigned(msgs, chat) == {} then n >= 1 else forall x | x in Assigned(msgs, chat) :: x < n)
    && (chat in sessions ==> n >= Cursor(sessions[chat]))
  }

  /** The first row of a chat to be numbered gets the least free number. */
  lemma BackfillStartsAtLeast(sessions: Sessions, msgs: Messages, id: int)
    requires id in Unnumbered(msgs) && Earlier(msgs, id) == {}
    ensures Free(sessions, msgs, msgs[id].chat, Due(sessions, msgs, id))
    ensures forall n | Free(sessions, msgs, msgs[id].chat, n) :: Due(sessions, msgs, id) <= n
  {
    var chat := msgs[id].chat;
    if Assigned(msgs, chat) != {} {
      assert MaxSeq(msgs, chat) in Assigned(msgs, chat);
    }
  }

  /** Backfilled rows of one chat keep their order of creation. */
  lemma BackfillKeepsOrder(sessions: Sessions, msgs: Messages, a: int, b: int)
    requires a in Unnumbered(msgs) && b in Unnumbered(msgs) && msgs[a].chat == msgs[b].chat
    ensures Before(msgs, a, b) ==> Due(sessions, msgs, a) < Due(sessions, msgs, b)
  {
    if Before(msgs, a, b) { EarlierGrows(msgs, a, b); }
  }

  /** ... and leave no gap: the first gets the number after the base, each further one the number
      after that of an earlier row. */
  lemma BackfillIsConsecutive(sessions: Sessions, msgs: Messages, id: int)
    requires id in Unnumbered(msgs)
    ensures Due(sessions, msgs, id) == Base(sessions, msgs, msgs[id].chat) + 1
         || exists p :: p in Earlier(msgs, id) && Due(sessions, msgs, id) == Due(sessions, msgs, p) + 1
  {
    var e := Earlier(msgs, id);
    if e != {} {
      var p := LastOf(msgs, e);
      assert Earlier(msgs, p) == e - {p};
    }
  }

  lemma {:induction false} LastOf(msgs: Messages, s: set<int>) returns (p: int)
    requires s != {} && forall x | x in s :: x in msgs
    ensures p in s && forall x | x in s && x != p :: Before(msgs, x, p)
    decreases |s|
  {
    HasElement(s);
    var x :| x in s;
    if s == {x} {
      p := x;
    } else {
      assert s - {x} != {} by { assert s == {x} + (s - {x}); }
      var q := LastOf(msgs, s - {x});
      p := if Before(msgs, x, q) then q else x;
    }
  }

  /** Every cursor ends above every number of its chat, and none falls. */
  lemma CursorsAhead(sessions: Sessions, msgs: Messages, chat: int)
    requires chat in sessions
    ensures var numbered := Numbered(sessions, msgs);
            && Advanced(sessions, numbered)[chat] >= sessions[chat]
            && forall x | x in Assigned(numbered, chat) :: x < Advanced(sessions, numbered)[chat]
  {
  }

  /** And it ends at the least value that does so. */
  lemma CursorsAreLeast(sessions: Sessions, numbered: Messages, chat: int, n: int)
    requires chat in sessions && n >= sessions[chat]
    requires if Assigned(numbered, chat) == {} then n >= 1 else forall x | x in Assigned(numbered, chat) :: x < n
    ensures Advanced(sessions, numbered)[chat] <= n
  {
    if Assigned(numbered, chat) != {} {
      assert MaxSeq(numbered, chat) in Assigned(numbered, chat);
    }
  }

  /** The rows of a chat. */
  ghost function RowsOf(msgs: Messages, chat: int): set<int> {
    set id | id in msgs && msgs[id].chat == chat
  }

  /** In a set of unnumbered rows that has with each row all earlier ones, every rank occurs. */
  lemma {:induction false} EveryRank(msgs: Messages, rows: set<int>, chat: int, n: nat) returns (id: int)
    requires forall x | x in rows ::
      x in Unnumbered(msgs) && x in msgs && msgs[x].chat == chat && Earlier(msgs, x) <= rows
    requires n < |rows|
    ensures id in rows && id in msgs && |Earlier(msgs, id)| == n
    decreases |rows|
  {
    var last := LastOf(msgs, rows);
    forall x ensures x in Earlier(msgs, last) <==> x in rows - {last} {
      if x in rows && x != last { assert Before(msgs, x, last); }
    }
    assert Earlier(msgs, last) == rows - {last};
    if n == |rows| - 1 {
      id := last;
    } else {
      forall x | x in rows - {last} ensures Earlier(msgs, x) <= rows - {last} {
        assert x != last && Before(msgs, x, last);
      }
      id := EveryRank(msgs, rows - {last}, chat, n);
    }
  }

  /** Where no row has a number yet and no cursor has moved, the rows of a chat get the numbers from 1
      to as many as there are, each once, in order of creation; the cursor comes next. */
  lemma FreshNumbers(sessions: Sessions, msgs: Messages, chat: int)
    requires (forall id | id in msgs :: msgs[id].number == None) && chat in sessions && sessions[chat] == 1
    ensures var numbered := Numbered(sessions, msgs); var k := |RowsOf(msgs, chat)|;
            && (forall id | id in RowsOf(msgs, chat) :: numbered[id].number == Some(1 + |Earlier(msgs, id)|))
            && (forall n :: n in Assigned(numbered, chat) <==> 1 <= n <= k)
            && Advanced(sessions, numbered)[chat] == k + 1
  {
    var numbered, rows := Numbered(sessions, msgs), RowsOf(msgs, chat);
    assert Assigned(msgs, chat) == {};
    assert forall x | x in rows :: x in Unnumbered(msgs) && Earlier(msgs, x) <= rows;
    forall n ensures n in Assigned(numbered, chat) <==> 1 <= n <= |rows| {
      if 1 <= n <= |rows| {
        var id := EveryRank(msgs, rows, chat, n - 1);
        assert numbered[id].number == Some(n);
      }
      if n in Assigned(numbered, chat) {
        var id :| id in numbered && numbered[id].chat == chat && numbered[id].number == Some(n);
        RankIsBelow(msgs, rows, id);
      }
    }
    TopOfRange(Assigned(numbered, chat), |rows|);
  }

  lemma RankIsBelow(msgs: Messages, rows: set<int>, id: int)
    requires id in msgs && id in rows && Earlier(msgs, id) <= rows
    ensures |Earlier(msgs, id)| < |rows|
  {
    SubsetSize(Earlier(msgs, id) + {id}, rows);
  }

  lemma TopOfRange(s: set<int>, k: nat)
    requires forall n :: n in s <==> 1 <= n <= k
    ensures Top(s) == k && (s == {} <==> k == 0)
  {
    if k > 0 { assert k in s; }
  }

  /** Repairing twice is repairing once. */
  lemma RepairIsIdempotent(sessions: Sessions, msgs: Messages)
    ensures var numbered := Numbered(sessions, msgs); var advanced := Advanced(sessions, numbered);
            && Unnumbered(numbered) == {}
            && Numbered(advanced, numbered) == numbered
            && Advanced(advanced, numbered) == advanced
  {
  }
}
