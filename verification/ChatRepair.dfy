/** Backfilling durable chat sequence numbers in a local database, statement by statement.

    SQL queries are methods that return what the query selects; a failing statement rolls the
    whole transaction back. */
module ChatRepair {
  import opened Wrappers
  import opened ChatTables

  datatype Update = Update(id: int, number: int)

  /** What the repair reports: columns it added, rows it numbered, whether it made the index. */
  datatype Report = Report(cursorAdded: bool, numberAdded: bool, backfilled: nat, indexAdded: bool)

  /** A `defaultdict(int)`. */
  function Get(m: map<int, int>, c: int): int {
    if c in m then m[c] else 0
  }

  // ---------------------------------------------------------------- queries

  /** `SELECT COALESCE(MAX(chat_seq), 0) .. WHERE chat_id = ..` */
  method SelectMax(msgs: Messages, chat: int) returns (top: int, any: bool)
    ensures top == MaxSeq(msgs, chat)
    ensures any <==> Assigned(msgs, chat) != {}
  {
    top, any := 0, false;
    var todo := msgs.Keys;
    ghost var best := 0;
    while todo != {}
      invariant todo <= msgs.Keys
      invariant if any then Numbers(msgs, chat, best) && msgs[best].number.value == top else top == 0
      invariant forall id | Numbers(msgs, chat, id) && id !in todo :: any && msgs[id].number.value <= top
      decreases |todo|
    {
      HasElement(todo);
      var id :| id in todo;
      todo := todo - {id};
      if msgs[id].chat == chat && msgs[id].number.Some? && (!any || top < msgs[id].number.value) {
        top, any, best := msgs[id].number.value, true, id;
      }
    }
    TopFromBest(msgs, chat, top, any, best);
  }

  ghost predicate Numbers(msgs: Messages, chat: int, id: int) {
    id in msgs && msgs[id].chat == chat && msgs[id].number.Some?
  }

  lemma TopFromBest(msgs: Messages, chat: int, top: int, any: bool, best: int)
    requires if any then Numbers(msgs, chat, best) && msgs[best].number.value == top else top == 0
    requires forall id | Numbers(msgs, chat, id) :: any && msgs[id].number.value <= top
    ensures top == MaxSeq(msgs, chat)
    ensures any <==> Assigned(msgs, chat) != {}
  {
    var s := Assigned(msgs, chat);
    if any {
      assert top in s;
    } else {
      assert forall id :: !Numbers(msgs, chat, id);
      assert s == {};
    }
    forall x | x in s ensures x <= top {
      var id :| Numbers(msgs, chat, id) && msgs[id].number.value == x;
    }
  }

  /** Sorted, without repetition, exactly the unnumbered rows. */
  ghost predicate Selection(msgs: Messages, rows: seq<int>) {
    && (forall x :: x in rows <==> x in Unnumbered(msgs))
    && (forall i, j | 0 <= i < j < |rows| ::
          rows[i] in msgs && rows[j] in msgs && SortsBefore(msgs, rows[i], rows[j]))
  }

  /** `SELECT .. WHERE chat_seq IS NULL ORDER BY chat_id, created_at, message_id` */
  method SelectUnnumbered(msgs: Messages) returns (rows: seq<int>)
    ensures Selection(msgs, rows)
  {
    rows := [];
    var todo := set id | id in msgs && msgs[id].number == None;
    while todo != {}
      invariant forall x | x in todo :: x in msgs
      invariant forall x :: x in rows || x in todo <==> x in Unnumbered(msgs)
      invariant forall x | x in rows :: x in msgs && forall y | y in todo :: SortsBefore(msgs, x, y)
      invariant forall i, j | 0 <= i < j < |rows| :: SortsBefore(msgs, rows[i], rows[j])
      decreases |todo|
    {
      var first := SelectFirst(msgs, todo);
      assert forall i | 0 <= i < |rows| :: rows[i] in rows && SortsBefore(msgs, rows[i], first);
      rows, todo := rows + [first], todo - {first};
    }
  }

  method SelectFirst(msgs: Messages, ids: set<int>) returns (first: int)
    requires ids != {} && forall x | x in ids :: x in msgs
    ensures first in ids && forall x | x in ids && x != first :: SortsBefore(msgs, first, x)
  {
    HasElement(ids);
    first :| first in ids;
    var todo := ids - {first};
    while todo != {}
      invariant todo <= ids && first in ids && first !in todo
      invariant forall x | x in ids && x !in todo && x != first :: SortsBefore(msgs, first, x)
      decreases |todo|
    {
      HasElement(todo);
      var x :| x in todo;
      todo := todo - {x};
      if SortsBefore(msgs, x, first) { first := x; }
    }
  }

  // ---------------------------------------------------------------- the loops

  /** The last number taken in every chat, from the rows and then from the cursors. */
  method LoadTaken(sessions: Sessions, msgs: Messages) returns (taken: map<int, int>)
    ensures forall c :: Get(taken, c) == Base(sessions, msgs, c)
  {
    taken := TakenByRows(msgs);
    var todo := sessions.Keys;
    while todo != {}
      invariant todo <= sessions.Keys
      invariant forall c :: Get(taken, c) == if c in todo then MaxSeq(msgs, c) else Base(sessions, msgs, c)
      decreases |todo|
    {
      HasElement(todo);
      var c :| c in todo;
      var last := Cursor(sessions[c]) - 1;
      taken := taken[c := if Get(taken, c) < last then last else Get(taken, c)];
      todo := todo - {c};
    }
  }

  method TakenByRows(msgs: Messages) returns (taken: map<int, int>)
    ensures forall c :: Get(taken, c) == MaxSeq(msgs, c)
  {
    taken := map[];
    var chats := set id | id in msgs :: msgs[id].chat;
    var todo := chats;
    while todo != {}
      invariant todo <= chats && taken.Keys == chats - todo
      invariant forall c | c in taken :: taken[c] == MaxSeq(msgs, c)
      decreases |todo|
    {
      HasElement(todo);
      var c :| c in todo;
      var top, _ := SelectMax(msgs, c);
      taken, todo := taken[c := top], todo - {c};
    }
    forall c | c !in chats ensures MaxSeq(msgs, c) == 0 {
      assert Assigned(msgs, c) == {};
    }
  }

  ghost function OfChat(msgs: Messages, rows: seq<int>, chat: int): set<int> {
    set x | x in rows && InChat(msgs, x, chat)
  }

  lemma OrderOfRows(msgs: Messages, rows: seq<int>, i: nat, k: nat)
    requires Selection(msgs, rows) && i < |rows| && k < |rows|
    ensures rows[i] in msgs && rows[k] in msgs
    ensures SortsBefore(msgs, rows[i], rows[k]) ==> i < k
    ensures rows[i] == rows[k] ==> i == k
  {
    assert rows[i] in rows && rows[k] in rows;
    assert rows[i] in Unnumbered(msgs) && rows[k] in Unnumbered(msgs);
    if i < k {
      assert SortsBefore(msgs, rows[i], rows[k]);
    } else if k < i {
      assert SortsBefore(msgs, rows[k], rows[i]);
    }
  }

  lemma NotInPrefix(msgs: Messages, rows: seq<int>, k: nat)
    requires Selection(msgs, rows) && k < |rows|
    ensures rows[k] !in rows[..k]
  {
  }

  /** The rows of a chat selected before row `k` are exactly the earlier unnumbered ones. */
  lemma PrefixIsEarlier(msgs: Messages, rows: seq<int>, k: nat)
    requires Selection(msgs, rows) && k < |rows|
    ensures rows[k] in msgs
    ensures OfChat(msgs, rows[..k], msgs[rows[k]].chat) == Earlier(msgs, rows[k])
  {
    var id := rows[k];
    assert id in rows;
    forall x ensures x in OfChat(msgs, rows[..k], msgs[id].chat) <==> x in Earlier(msgs, id) {
      if x in Earlier(msgs, id) {
        assert x in rows;
        var i :| 0 <= i < |rows| && rows[i] == x;
        OrderOfRows(msgs, rows, i, k);
        assert rows[..k][i] == x;
      } else if x in rows[..k] {
        var i :| 0 <= i < k && rows[..k][i] == x;
        assert SortsBefore(msgs, rows[i], rows[k]) && rows[i] in rows;
      }
    }
  }

  /** The numbers taken once the first `k` rows have theirs. */
  ghost predicate Counted(sessions: Sessions, msgs: Messages, rows: seq<int>, k: nat, taken: map<int, int>)
    requires k <= |rows|
  {
    forall c :: Get(taken, c) == Base(sessions, msgs, c) + |OfChat(msgs, rows[..k], c)|
  }

  ghost predicate AllDue(sessions: Sessions, msgs: Messages, rows: seq<int>, updates: seq<Update>)
    requires |updates| <= |rows|
  {
    forall j | 0 <= j < |updates| :: rows[j] in msgs && updates[j] == Update(rows[j], Due(sessions, msgs, rows[j]))
  }

  /** The next number of the chat is what row `k` is due. */
  lemma NextNumber(sessions: Sessions, msgs: Messages, rows: seq<int>, k: nat, taken: map<int, int>)
    requires Selection(msgs, rows) && k < |rows| && Counted(sessions, msgs, rows, k, taken)
    ensures rows[k] in msgs
    ensures var c := msgs[rows[k]].chat;
            && Counted(sessions, msgs, rows, k + 1, taken[c := Get(taken, c) + 1])
            && Get(taken, c) + 1 == Due(sessions, msgs, rows[k])
  {
    assert rows[k] in rows;
    PrefixIsEarlier(msgs, rows, k);
    var c := msgs[rows[k]].chat;
    var more := taken[c := Get(taken, c) + 1];
    assert Get(taken, c) == Base(sessions, msgs, c) + |OfChat(msgs, rows[..k], c)|;
    forall x ensures Get(more, x) == Base(sessions, msgs, x) + |OfChat(msgs, rows[..k + 1], x)| {
      PrefixGrows(msgs, rows, k, x);
      assert Get(taken, x) == Base(sessions, msgs, x) + |OfChat(msgs, rows[..k], x)|;
    }
  }

  lemma NothingCounted(sessions: Sessions, msgs: Messages, rows: seq<int>, start: map<int, int>)
    requires forall c :: Get(start, c) == Base(sessions, msgs, c)
    ensures Counted(sessions, msgs, rows, 0, start)
  {
    forall c ensures Get(start, c) == Base(sessions, msgs, c) + |OfChat(msgs, rows[..0], c)| {
      assert OfChat(msgs, rows[..0], c) == {};
    }
  }

  lemma OneMoreDue(sessions: Sessions, msgs: Messages, rows: seq<int>, updates: seq<Update>, number: int)
    requires |updates| < |rows| && AllDue(sessions, msgs, rows, updates) && rows[|updates|] in msgs
    requires number == Due(sessions, msgs, rows[|updates|])
    ensures AllDue(sessions, msgs, rows, updates + [Update(rows[|updates|], number)])
  {
  }

  /** Number the selected rows: each takes the next free number of its chat. */
  method Backfill(sessions: Sessions, msgs: Messages, rows: seq<int>, start: map<int, int>)
    returns (updates: seq<Update>)
    requires Selection(msgs, rows)
    requires forall c :: Get(start, c) == Base(sessions, msgs, c)
    ensures |updates| == |rows|
    ensures forall j | 0 <= j < |rows| ::
      rows[j] in msgs && updates[j] == Update(rows[j], Due(sessions, msgs, rows[j]))
  {
    updates := [];
    var taken := start;
    var k := 0;
    NothingCounted(sessions, msgs, rows, start);
    while k < |rows|
      invariant 0 <= k <= |rows| && |updates| == k
      invariant Counted(sessions, msgs, rows, k, taken)
      invariant AllDue(sessions, msgs, rows, updates)
    {
      NextNumber(sessions, msgs, rows, k, taken);
      var c := msgs[rows[k]].chat;
      taken := taken[c := Get(taken, c) + 1];
      OneMoreDue(sessions, msgs, rows, updates, taken[c]);
      updates := updates + [Update(rows[k], taken[c])];
      k := k + 1;
    }
  }

  lemma PrefixGrows(msgs: Messages, rows: seq<int>, k: nat, c: int)
    requires Selection(msgs, rows) && k < |rows| && rows[k] in msgs
    ensures |OfChat(msgs, rows[..k + 1], c)|
         == |OfChat(msgs, rows[..k], c)| + if msgs[rows[k]].chat == c then 1 else 0
  {
    assert rows[..k + 1] == rows[..k] + [rows[k]];
    NotInPrefix(msgs, rows, k);
    if msgs[rows[k]].chat == c {
      assert OfChat(msgs, rows[..k + 1], c) == OfChat(msgs, rows[..k], c) + {rows[k]};
    } else {
      assert OfChat(msgs, rows[..k + 1], c) == OfChat(msgs, rows[..k], c);
    }
  }

  // ---------------------------------------------------------------- the database

  /** A new column takes its default in every row. */
  function WithCursor(sessions: Sessions, present: bool): Sessions {
    if present then sessions else map c | c in sessions :: 1
  }

  function WithNumber(msgs: Messages, present: bool): Messages {
    if present then msgs else map id | id in msgs :: msgs[id].(number := None)
  }

  class Database {
    var sessions: Sessions
    var messages: Messages
    var hasCursor: bool      // the column chat_sessions.next_message_seq exists
    var hasNumber: bool      // the column chat_messages.chat_seq exists
    var hasIndex: bool       // the unique index on (chat_id, chat_seq) exists

    ghost predicate Valid()
      reads this
    {
      hasIndex ==> hasNumber && SeqsUnique(messages)
    }

    method Reconcile() returns (r: Result<Report>)
      requires Valid()
      modifies this
      ensures Valid()
      ensures r.Ok? <==> SeqsUnique(WithNumber(old(messages), old(hasNumber)))
      ensures r.Err? ==> (sessions == old(sessions) && messages == old(messages)
                          && hasCursor == old(hasCursor) && hasNumber == old(hasNumber) && hasIndex == old(hasIndex))
      ensures r.Ok? ==>
        var s0 := WithCursor(old(sessions), old(hasCursor)); var m0 := WithNumber(old(messages), old(hasNumber));
        && messages == Numbered(s0, m0) && sessions == Advanced(s0, messages)
        && hasCursor && hasNumber && hasIndex
        && r.value == Report(!old(hasCursor), !old(hasNumber), |Unnumbered(m0)|, !old(hasIndex))
    {
      var s0 := WithCursor(sessions, hasCursor);
      var m0 := WithNumber(messages, hasNumber);
      var taken := LoadTaken(s0, m0);
      var rows := SelectUnnumbered(m0);
      var updates := Backfill(s0, m0, rows, taken);
      var m1 := Apply(s0, m0, rows, updates);
      var s1 := AdvanceCursors(s0, m1);
      NumberedUniqueIff(s0, m0);
      SelectionSize(m0, rows);
      if !hasIndex {
        var unique := CheckUnique(m1);
        if !unique {
          return Err("UNIQUE constraint failed");
        }
      }
      r := Ok(Report(!hasCursor, !hasNumber, |updates|, !hasIndex));
      sessions, messages, hasCursor, hasNumber, hasIndex := s1, m1, true, true, true;
    }
  }

  /** `UPDATE chat_messages SET chat_seq = .. WHERE message_id = ..` */
  method Apply(ghost sessions: Sessions, msgs: Messages, ghost rows: seq<int>, updates: seq<Update>)
    returns (t: Messages)
    requires Selection(msgs, rows) && |updates| == |rows|
    requires forall j | 0 <= j < |rows| ::
      rows[j] in msgs && updates[j] == Update(rows[j], Due(sessions, msgs, rows[j]))
    ensures t == Numbered(sessions, msgs)
  {
    t := msgs;
    var k := 0;
    while k < |updates|
      invariant 0 <= k <= |updates| && t.Keys == msgs.Keys
      invariant forall id | id in msgs ::
        t[id] == if id in rows[..k] then msgs[id].(number := Some(Due(sessions, msgs, id))) else msgs[id]
    {
      var u := updates[k];
      assert rows[..k + 1] == rows[..k] + [rows[k]];
      assert rows[k] in rows;
      t := t[u.id := t[u.id].(number := Some(u.number))];
      k := k + 1;
    }
    assert rows[..k] == rows;
  }

  /** `UPDATE chat_sessions SET next_message_seq = CASE ..` */
  method AdvanceCursors(sessions: Sessions, msgs: Messages) returns (t: Sessions)
    ensures t == Advanced(sessions, msgs)
  {
    t := map[];
    var todo := sessions.Keys;
    while todo != {}
      invariant todo <= sessions.Keys && t.Keys == sessions.Keys - todo
      invariant forall c | c in t :: t[c] == Advanced(sessions, msgs)[c]
      decreases |todo|
    {
      HasElement(todo);
      var c :| c in todo;
      var top, any := SelectMax(msgs, c);
      var least := if any then top + 1 else 1;
      t, todo := t[c := if sessions[c] > least then sessions[c] else least], todo - {c};
    }
  }

  /** `CREATE UNIQUE INDEX` succeeds when no two rows collide; NULL collides with nothing. */
  method CheckUnique(msgs: Messages) returns (unique: bool)
    ensures unique <==> SeqsUnique(msgs)
  {
    unique := forall a, b | a in msgs && b in msgs && a != b && msgs[a].chat == msgs[b].chat && msgs[a].number.Some? ::
      msgs[a].number != msgs[b].number;
  }

  function Ids(rows: seq<int>): set<int> {
    set x | x in rows
  }

  ghost predicate Distinct(rows: seq<int>) {
    forall i, j | 0 <= i < j < |rows| :: rows[i] != rows[j]
  }

  lemma SelectionIsDistinct(msgs: Messages, rows: seq<int>)
    requires Selection(msgs, rows)
    ensures Distinct(rows)
  {
  }

  lemma SelectionSize(msgs: Messages, rows: seq<int>)
    requires Selection(msgs, rows)
    ensures |rows| == |Unnumbered(msgs)|
  {
    SelectionIsDistinct(msgs, rows);
    DistinctSize(rows);
    forall x ensures x in Ids(rows) <==> x in Unnumbered(msgs) {
      assert x in rows <==> x in Unnumbered(msgs);
    }
    assert Ids(rows) == Unnumbered(msgs);
  }

  lemma {:induction false} DistinctSize(rows: seq<int>)
    requires Distinct(rows)
    ensures |Ids(rows)| == |rows|
    decreases |rows|
  {
    if rows == [] {
      assert Ids(rows) == {};
    } else {
      var rest, last := rows[..|rows| - 1], rows[|rows| - 1];
      DistinctSize(rest);
      assert last !in rest && rows == rest + [last];
      assert Ids(rows) == Ids(rest) + {last};
    }
  }
}
