/** The in-process TTL store, which drops dead entries lazily, against an exact timed map, which
    holds at every moment just the entries that are alive. Times are real numbers; the clock is a
    parameter of every call. */
module Ephemeral {
  import opened Wrappers

  /** A stored string: as given, or the representation of a counter's total. */
  datatype Value = Text(text: string) | Total(total: real)

  datatype Entry = Entry(expires: real, value: Value)

  type Entries = map<string, Entry>

  datatype Op =
    | Get(key: string)
    | Put(key: string, text: string, ttl: int)
    | Take(key: string)
    | Drop(keys: seq<string>)
    | Bump(key: string, amount: real, ttl: int)
    | Claim(key: string, ttl: int)

  datatype Reply = Found(value: Option<Value>) | Done | NewTotal(total: real) | Claimed(won: bool) | ValueError

  // ---------------------------------------------------------------- the exact timed map

  /** What is alive at `now`. */
  function Alive(m: Entries, now: real): Entries {
    map k | k in m && m[k].expires > now :: m[k]
  }

  /** How a stored string reads as a number; `parse` is what `float()` makes of a given text. */
  function Number(v: Value, parse: string -> Option<real>): Option<real> {
    match v
    case Text(text) => parse(text)
    case Total(x) => Some(x)
  }

  /** One operation on a map without dead entries: what it leaves and what it answers. */
  function Exact(m: Entries, op: Op, now: real, parse: string -> Option<real>): (Entries, Reply) {
    match op
    case Get(k) => (m, Found(if k in m then Some(m[k].value) else None))
    case Put(k, text, ttl) =>
      if ttl <= 0 then (m, ValueError) else (m[k := Entry(now + ttl as real, Text(text))], Done)
    case Take(k) => (m - {k}, Found(if k in m then Some(m[k].value) else None))
    case Drop(keys) => (m - (set k | k in keys), Done)
    case Bump(k, amount, ttl) =>
      var current := if k in m then Number(m[k].value, parse) else Some(0.0);
      if ttl <= 0 || current == None then (m, ValueError)
      else (m[k := Entry(now + ttl as real, Total(current.value + amount))], NewTotal(current.value + amount))
    case Claim(k, ttl) =>
      if ttl <= 0 then (m, ValueError)
      else if k in m then (m, Claimed(false))
      else (m[k := Entry(now + ttl as real, Text("1"))], Claimed(true))
  }

  /** Pruning late is pruning on time. */
  lemma AliveLater(m: Entries, t: real, now: real)
    requires t <= now
    ensures Alive(Alive(m, t), now) == Alive(m, now)
  {
  }

  lemma AliveWith(m: Entries, k: string, e: Entry, now: real)
    requires e.expires > now
    ensures Alive(m[k := e], now) == Alive(m, now)[k := e]
  {
  }

  lemma AliveWithout(m: Entries, ks: set<string>, now: real)
    ensures Alive(m - ks, now) == Alive(m, now) - ks
  {
  }

  // ---------------------------------------------------------------- the store

  class LocalEphemeralState {
    var entries: Entries
    const parse: string -> Option<real>

    constructor (parse: string -> Option<real>)
      ensures entries == map[] && this.parse == parse
    {
      this.parse := parse;
      entries := map[];
    }

    /** `get` and, with `pop`, `take`: an entry found dead is removed on the way. */
    method Read(key: string, pop: bool, now: real) returns (r: Option<Value>)
      modifies this
      ensures (Alive(entries, now), Found(r))
           == Exact(Alive(old(entries), now), if pop then Take(key) else Get(key), now, parse)
      ensures entries == old(entries) || entries == old(entries) - {key}
    {
      AliveWithout(entries, {key}, now);
      if key !in entries {
        assert Alive(entries, now) - {key} == Alive(entries, now);
        return None;
      }
      var entry := entries[key];
      assert entry.expires <= now ==> Alive(entries, now) - {key} == Alive(entries, now);
      if entry.expires <= now {
        entries := entries - {key};
        return None;
      }
      if pop { entries := entries - {key}; }
      return Some(entry.value);
    }

    method Prune(now: real)
      modifies this
      ensures entries == Alive(old(entries), now)
    {
      var expired := set k | k in entries && entries[k].expires <= now;
      entries := entries - expired;
    }

    method Put(key: string, text: string, ttl: int, now: real) returns (r: Reply)
      modifies this
      ensures (Alive(entries, now), r) == Exact(Alive(old(entries), now), Op.Put(key, text, ttl), now, parse)
    {
      if ttl <= 0 { return ValueError; }
      var expires := now + ttl as real;
      Prune(expires - ttl as real);
      AliveLater(old(entries), now, now);
      AliveWith(entries, key, Entry(expires, Text(text)), now);
      entries := entries[key := Entry(expires, Text(text))];
      r := Done;
    }

    method Drop(keys: seq<string>, now: real) returns (r: Reply)
      modifies this
      ensures (Alive(entries, now), r) == Exact(Alive(old(entries), now), Op.Drop(keys), now, parse)
    {
      for i := 0 to |keys|
        invariant entries == old(entries) - (set k | k in keys[..i])
      {
        assert keys[..i + 1] == keys[..i] + [keys[i]];
        entries := entries - {keys[i]};
      }
      assert keys[..|keys|] == keys;
      AliveWithout(old(entries), (set k | k in keys), now);
      r := Done;
    }

    method Bump(key: string, amount: real, ttl: int, now: real) returns (r: Reply)
      modifies this
      ensures (Alive(entries, now), r) == Exact(Alive(old(entries), now), Op.Bump(key, amount, ttl), now, parse)
    {
      if ttl <= 0 { return ValueError; }
      Prune(now);
      AliveLater(old(entries), now, now);
      var current := 0.0;
      if key in entries {
        var number := Number(entries[key].value, parse);
        if number == None { return ValueError; }
        current := number.value;
      }
      var total := current + amount;
      AliveWith(entries, key, Entry(now + ttl as real, Total(total)), now);
      entries := entries[key := Entry(now + ttl as real, Total(total))];
      r := NewTotal(total);
    }

    method Claim(key: string, ttl: int, now: real) returns (r: Reply)
      modifies this
      ensures (Alive(entries, now), r) == Exact(Alive(old(entries), now), Op.Claim(key, ttl), now, parse)
    {
      if ttl <= 0 { return ValueError; }
      Prune(now);
      AliveLater(old(entries), now, now);
      AliveWith(entries, key, Entry(now + ttl as real, Text("1")), now);
      if key in entries { return Claimed(false); }
      entries := entries[key := Entry(now + ttl as real, Text("1"))];
      r := Claimed(true);
    }

    method Perform(op: Op, now: real) returns (r: Reply)
      modifies this
      ensures (Alive(entries, now), r) == Exact(Alive(old(entries), now), op, now, parse)
    {
      match op
      case Get(k) => var v := Read(k, false, now); r := Found(v);
      case Take(k) => var v := Read(k, true, now); r := Found(v);
      case Put(k, text, ttl) => r := Put(k, text, ttl, now);
      case Drop(keys) => r := Drop(keys, now);
      case Bump(k, amount, ttl) => r := Bump(k, amount, ttl, now);
      case Claim(k, ttl) => r := Claim(k, ttl, now);
    }
  }

  // ---------------------------------------------------------------- whole runs

  /** Operations with the moments they happen at; the clock never goes back. */
  datatype Timed = Timed(op: Op, now: real)

  predicate Clocked(ops: seq<Timed>) {
    forall i, j | 0 <= i < j < |ops| :: ops[i].now <= ops[j].now
  }

  /** The exact map after the first `n` operations, dead entries dropped at every step. */
  function After(m: Entries, ops: seq<Timed>, n: nat, parse: string -> Option<real>): Entries
    requires n <= |ops|
    decreases n, 0
  {
    if n == 0 then m else Exact(Living(m, ops, n - 1, parse), ops[n - 1].op, ops[n - 1].now, parse).0
  }

  /** What operation `n` finds alive. */
  function Living(m: Entries, ops: seq<Timed>, n: nat, parse: string -> Option<real>): Entries
    requires n < |ops|
    decreases n, 1
  {
    Alive(After(m, ops, n, parse), ops[n].now)
  }

  function ExactReply(m: Entries, ops: seq<Timed>, i: nat, parse: string -> Option<real>): Reply
    requires i < |ops|
  {
    Exact(Living(m, ops, i, parse), ops[i].op, ops[i].now, parse).1
  }

  /** From `from` on the two maps have the same living entries. */
  ghost predicate AgreeFrom(a: Entries, b: Entries, from: real) {
    forall t :: t >= from ==> Alive(a, t) == Alive(b, t)
  }

  lemma AgreementStays(lazy: Entries, exact: Entries, after: Entries, op: Op, now: real, parse: string -> Option<real>)
    requires Alive(lazy, now) == Alive(exact, now)
    requires Alive(after, now) == Exact(Alive(lazy, now), op, now, parse).0
    ensures AgreeFrom(after, Exact(Alive(exact, now), op, now, parse).0, now)
  {
    var next := Exact(Alive(exact, now), op, now, parse).0;
    forall t | t >= now ensures Alive(after, t) == Alive(next, t) {
      AliveLater(after, now, t);
      ExactStaysAlive(Alive(exact, now), op, now, parse);
    }
  }

  /** An exact step leaves nothing dead behind. */
  lemma ExactStaysAlive(m: Entries, op: Op, now: real, parse: string -> Option<real>)
    requires forall k | k in m :: m[k].expires > now
    ensures var t := Exact(m, op, now, parse).0; Alive(t, now) == t
  {
  }

  /** Any run on the lazy store gets, reply by reply, what the exact timed map would have answered. */
  method Replay(store: LocalEphemeralState, ops: seq<Timed>) returns (replies: seq<Reply>)
    requires Clocked(ops) && store.entries == map[]
    modifies store
    ensures |replies| == |ops|
    ensures forall i | 0 <= i < |ops| :: replies[i] == ExactReply(map[], ops, i, store.parse)
  {
    replies := [];
    for i := 0 to |ops|
      invariant |replies| == i
      invariant i < |ops| ==> Alive(store.entries, ops[i].now) == Living(map[], ops, i, store.parse)
      invariant forall j | 0 <= j < i :: replies[j] == ExactReply(map[], ops, j, store.parse)
    {
      ghost var before := store.entries;
      var r := store.Perform(ops[i].op, ops[i].now);
      replies := replies + [r];
      ghost var exact := After(map[], ops, i, store.parse);
      AgreementStays(before, exact, store.entries, ops[i].op, ops[i].now, store.parse);
      assert i + 1 < |ops| ==> ops[i].now <= ops[i + 1].now;
    }
  }

  // ---------------------------------------------------------------- what callers rely on

  /** The operation may remove or replace the key's entry. */
  predicate Touches(op: Op, key: string) {
    match op
    case Put(k, _, _) => k == key
    case Take(k) => k == key
    case Drop(keys) => key in keys
    case Bump(k, _, _) => k == key
    case _ => false
  }

  /** The operation may bring the key into being. */
  predicate Creates(op: Op, key: string) {
    match op
    case Put(k, _, _) => k == key
    case Bump(k, _, _) => k == key
    case Claim(k, _) => k == key
    case _ => false
  }

  /** An entry nobody touches is there until it expires. */
  lemma {:induction false} EntryStays(m: Entries, ops: seq<Timed>, i: nat, n: nat, key: string,
                                      parse: string -> Option<real>)
    requires i <= n <= |ops| && key in After(m, ops, i, parse)
    requires forall k | i <= k < n ::
      !Touches(ops[k].op, key) && ops[k].now < After(m, ops, i, parse)[key].expires
    ensures var t := After(m, ops, n, parse); key in t && t[key] == After(m, ops, i, parse)[key]
    decreases n
  {
    if i < n { EntryStays(m, ops, i, n - 1, key, parse); }
  }

  lemma {:induction false} AbsenceStays(m: Entries, ops: seq<Timed>, i: nat, n: nat, key: string,
                                        parse: string -> Option<real>)
    requires i <= n <= |ops| && key !in After(m, ops, i, parse)
    requires forall k | i <= k < n :: !Creates(ops[k].op, key)
    ensures key !in After(m, ops, n, parse)
    decreases n
  {
    if i < n { AbsenceStays(m, ops, i, n - 1, key, parse); }
  }

  /** Two callers that both win one key, with nothing removing or replacing it in between, do so at
      least the first one's ttl apart. */
  lemma ClaimsAreApart(m: Entries, ops: seq<Timed>, i: nat, j: nat, key: string, ttl: int, ttl': int,
                       parse: string -> Option<real>)
    requires Clocked(ops) && i < j < |ops|
    requires ops[i].op == Claim(key, ttl) && ExactReply(m, ops, i, parse) == Claimed(true)
    requires ops[j].op == Claim(key, ttl') && ExactReply(m, ops, j, parse) == Claimed(true)
    requires forall k | i < k < j :: !Touches(ops[k].op, key)
    ensures ops[j].now - ops[i].now >= ttl as real
  {
    if ops[j].now < ops[i].now + ttl as real {
      assert After(m, ops, i + 1, parse)[key].expires == ops[i].now + ttl as real;
      EntryStays(m, ops, i + 1, j, key, parse);
    }
  }

  /** Between two successful takes of a key something must have created it again: one value is
      handed out once. */
  lemma TakenOnce(m: Entries, ops: seq<Timed>, i: nat, j: nat, key: string, parse: string -> Option<real>)
    requires i < j < |ops| && ops[i].op == Take(key) && ops[j].op == Take(key)
    requires ExactReply(m, ops, j, parse).value.Some?
    ensures exists k | i < k < j :: Creates(ops[k].op, key)
  {
    if !exists k | i < k < j :: Creates(ops[k].op, key) {
      AbsenceStays(m, ops, i + 1, j, key, parse);
    }
  }

  /** The operation, answered like this, leaves the value under the key for `ttl` seconds. */
  predicate Writes(op: Op, reply: Reply, key: string, v: Value, ttl: int) {
    match op
    case Put(k, text, t) => k == key && t == ttl > 0 && v == Text(text)
    case Bump(k, _, t) => k == key && t == ttl > 0 && reply.NewTotal? && v == Total(reply.total)
    case Claim(k, t) => k == key && t == ttl > 0 && reply == Claimed(true) && v == Text("1")
    case _ => false
  }

  predicate Removes(op: Op, key: string) {
    match op
    case Take(k) => k == key
    case Drop(keys) => key in keys
    case _ => false
  }

  /** The answers of operations that concern a key under which this value is alive, and those where
      there is none. */
  predicate AnswersPresent(op: Op, reply: Reply, key: string, v: Value, parse: string -> Option<real>) {
    match op
    case Get(k) => k == key ==> reply == Found(Some(v))
    case Take(k) => k == key ==> reply == Found(Some(v))
    case Claim(k, ttl) => k == key ==> reply == if ttl > 0 then Claimed(false) else ValueError
    case Bump(k, amount, ttl) =>
      k == key ==>
        reply == if ttl > 0 && Number(v, parse).Some? then NewTotal(Number(v, parse).value + amount) else ValueError
    case Put(_, _, ttl) => reply == if ttl > 0 then Done else ValueError
    case Drop(_) => reply == Done
  }

  predicate AnswersAbsent(op: Op, reply: Reply, key: string) {
    match op
    case Get(k) => k == key ==> reply == Found(None)
    case Take(k) => k == key ==> reply == Found(None)
    case Claim(k, ttl) => k == key ==> reply == if ttl > 0 then Claimed(true) else ValueError
    case Bump(k, amount, ttl) => k == key ==> reply == if ttl > 0 then NewTotal(amount) else ValueError
    case Put(_, _, ttl) => reply == if ttl > 0 then Done else ValueError
    case Drop(_) => reply == Done
  }

  /** What was written under a key is what is found there until its time is over, as long as nobody
      touches it; from then on nothing is found until somebody writes again. */
  lemma ReadAfterWrite(m: Entries, ops: seq<Timed>, i: nat, j: nat, key: string, v: Value, ttl: int,
                       parse: string -> Option<real>)
    requires Clocked(ops) && i < j < |ops| && Writes(ops[i].op, ExactReply(m, ops, i, parse), key, v, ttl)
    requires forall k | i < k < j :: !Touches(ops[k].op, key)
    ensures ops[j].now < ops[i].now + ttl as real ==>
              AnswersPresent(ops[j].op, ExactReply(m, ops, j, parse), key, v, parse)
    ensures ops[j].now >= ops[i].now + ttl as real && (forall k | i < k < j :: !Creates(ops[k].op, key)) ==>
              AnswersAbsent(ops[j].op, ExactReply(m, ops, j, parse), key)
  {
    assert After(m, ops, i + 1, parse)[key] == Entry(ops[i].now + ttl as real, v);
    if ops[j].now < ops[i].now + ttl as real {
      EntryStays(m, ops, i + 1, j, key, parse);
    } else if forall k | i < k < j :: !Creates(ops[k].op, key) {
      NothingLater(m, ops, i + 1, j, key, ops[i].now + ttl as real, parse);
    }
  }

  /** An entry that nobody renews does not outlive its time. */
  lemma {:induction false} NothingLater(m: Entries, ops: seq<Timed>, i: nat, n: nat, key: string, expires: real,
                                        parse: string -> Option<real>)
    requires i <= n <= |ops|
    requires key in After(m, ops, i, parse) ==> After(m, ops, i, parse)[key].expires <= expires
    requires forall k | i <= k < n :: !Creates(ops[k].op, key)
    ensures key in After(m, ops, n, parse) ==> After(m, ops, n, parse)[key].expires <= expires
    decreases n
  {
    if i < n { NothingLater(m, ops, i, n - 1, key, expires, parse); }
  }

  /** Nothing is found under a key that has never been written, or not since it was taken or dropped. */
  lemma ReadAfterRemoval(m: Entries, ops: seq<Timed>, i: nat, j: nat, key: string, parse: string -> Option<real>)
    requires i <= j < |ops| && if i == 0 then key !in m else Removes(ops[i - 1].op, key)
    requires forall k | i <= k < j :: !Creates(ops[k].op, key)
    ensures AnswersAbsent(ops[j].op, ExactReply(m, ops, j, parse), key)
  {
    AbsenceStays(m, ops, i, j, key, parse);
  }

  /** The number the first `n` operations leave a key with: what was put or claimed there last, or zero
      where the key has been absent or expired since, and everything added from then on. A text that
      is no number counts as nothing until it is overwritten or gone. */
  function Tally(m: Entries, ops: seq<Timed>, n: nat, key: string, parse: string -> Option<real>): Option<real>
    requires n <= |ops|
  {
    if n == 0 then (if key in m then Number(m[key].value, parse) else Some(0.0))
    else
      var present := key in Living(m, ops, n - 1, parse);
      TallyStep(if present then Tally(m, ops, n - 1, key, parse) else Some(0.0), present, ops[n - 1].op, key, parse)
  }

  /** What one operation does to the number, when the key is there or not. */
  function TallyStep(base: Option<real>, present: bool, op: Op, key: string,
                     parse: string -> Option<real>): Option<real>
  {
    match op
    case Put(k, text, ttl) => if k == key && ttl > 0 then parse(text) else base
    case Claim(k, ttl) => if k == key && ttl > 0 && !present then parse("1") else base
    case Bump(k, amount, ttl) => if k == key && ttl > 0 && base.Some? then Some(base.value + amount) else base
    case _ => base
  }

  lemma TallyFollows(m: Entries, base: Option<real>, op: Op, now: real, key: string, parse: string -> Option<real>)
    requires base == if key in m then Number(m[key].value, parse) else Some(0.0)
    ensures var t := Exact(m, op, now, parse).0;
            key in t ==> Number(t[key].value, parse) == TallyStep(base, key in m, op, key, parse)
  {
    match op
    case Put(_, _, _) =>
    case Drop(_) =>
    case Bump(_, _, _) =>
    case _ =>
  }

  /** However puts, claims, additions, takes, drops and expiry alternate, a key that is present reads as
      that number ... */
  lemma {:induction false} KeyReadsAsTally(m: Entries, ops: seq<Timed>, n: nat, key: string,
                                           parse: string -> Option<real>)
    requires n <= |ops|
    ensures var t := After(m, ops, n, parse); key in t ==> Number(t[key].value, parse) == Tally(m, ops, n, key, parse)
    decreases n
  {
    if n > 0 {
      KeyReadsAsTally(m, ops, n - 1, key, parse);
      var before, last := Living(m, ops, n - 1, parse), ops[n - 1];
      var base := if key in before then Tally(m, ops, n - 1, key, parse) else Some(0.0);
      TallyFollows(before, base, last.op, last.now, key, parse);
    }
  }

  /** ... and every addition answers it, or nothing is stored: the ttl is refused or a text that is no
      number is in the way. */
  lemma BumpAnswersTally(m: Entries, ops: seq<Timed>, i: nat, key: string, parse: string -> Option<real>)
    requires i < |ops| && ops[i].op.Bump? && ops[i].op.key == key
    ensures var tally := Tally(m, ops, i + 1, key, parse);
            ExactReply(m, ops, i, parse)
              == if ops[i].op.ttl > 0 && tally.Some? then NewTotal(tally.value) else ValueError
  {
    KeyReadsAsTally(m, ops, i, key, parse);
  }

  /** Operation `k` finds the key there, and does not remove or replace it but by an addition. */
  predicate AdditionOrNone(m: Entries, ops: seq<Timed>, k: nat, key: string, parse: string -> Option<real>)
    requires k < |ops|
  {
    key in Living(m, ops, k, parse) && (Touches(ops[k].op, key) ==> ops[k].op.Bump?)
  }

  /** The amounts operations `j` to `n` add to the key, the refused additions left out. */
  function Added(ops: seq<Timed>, j: nat, n: nat, key: string): real
    requires j <= n <= |ops|
    decreases n
  {
    if n == j then 0.0
    else
      var op := ops[n - 1].op;
      Added(ops, j, n - 1, key) + if op.Bump? && op.key == key && op.ttl > 0 then op.amount else 0.0
  }

  /** The sum since the key was last absent, spelled out: if `ops[j]` is an addition that finds the key
      absent, and from there on the key is only added to, the number is the sum of all amounts from
      `ops[j]` on, whatever was put, claimed, taken or dropped before. */
  lemma {:induction false} TallyIsSumSinceAbsent(m: Entries, ops: seq<Timed>, j: nat, n: nat, key: string,
                                                 parse: string -> Option<real>)
    requires j < n <= |ops| && ops[j].op.Bump? && key !in Living(m, ops, j, parse)
    requires forall k: nat | j < k < n :: AdditionOrNone(m, ops, k, key, parse)
    ensures Tally(m, ops, n, key, parse) == Some(Added(ops, j, n, key))
    decreases n
  {
    if j + 1 < n {
      assert AdditionOrNone(m, ops, n - 1, key, parse);
      TallyIsSumSinceAbsent(m, ops, j, n - 1, key, parse);
    }
  }
}
