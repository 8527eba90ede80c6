/** Frozen and thawed values, and the append-only event sink with its observers: a store and any
    number of subscribers. */
module Events {
  import opened Wrappers

  // ---------------------------------------------------------------- freezing and thawing

  /** JSON values as Python holds them; `Proxy` is a read-only mapping. */
  datatype Value =
    | Str(text: string)
    | Number(n: int)
    | Other(code: int)
    | List(items: seq<Value>)
    | Tuple(items: seq<Value>)
    | Dict(fields: map<string, Value>)
    | Proxy(fields: map<string, Value>)

  function Freeze(v: Value): Value {
    match v
    case List(items) => Tuple(seq(|items|, i requires 0 <= i < |items| => Freeze(items[i])))
    case Tuple(items) => Tuple(seq(|items|, i requires 0 <= i < |items| => Freeze(items[i])))
    case Dict(fields) => Proxy(map k | k in fields :: Freeze(fields[k]))
    case Proxy(fields) => Proxy(map k | k in fields :: Freeze(fields[k]))
    case _ => v
  }

  function Thaw(v: Value): Value {
    match v
    case List(items) => List(seq(|items|, i requires 0 <= i < |items| => Thaw(items[i])))
    case Tuple(items) => List(seq(|items|, i requires 0 <= i < |items| => Thaw(items[i])))
    case Dict(fields) => Dict(map k | k in fields :: Thaw(fields[k]))
    case Proxy(fields) => Dict(map k | k in fields :: Thaw(fields[k]))
    case _ => v
  }

  /** Nothing in it can be changed. */
  predicate Frozen(v: Value) {
    match v
    case List(_) => false
    case Tuple(items) => forall i | 0 <= i < |items| :: Frozen(items[i])
    case Dict(_) => false
    case Proxy(fields) => forall k | k in fields :: Frozen(fields[k])
    case _ => true
  }

  /** Freezing is thorough, and leaves alone what is frozen already. */
  lemma {:induction false} FreezeFreezes(v: Value)
    ensures Frozen(Freeze(v)) && (Frozen(v) ==> Freeze(v) == v)
  {
    match v
    case List(items) => forall i | 0 <= i < |items| { FreezeFreezes(items[i]); }
    case Tuple(items) => forall i | 0 <= i < |items| { FreezeFreezes(items[i]); }
    case Dict(fields) => forall k | k in fields { FreezeFreezes(fields[k]); }
    case Proxy(fields) => forall k | k in fields { FreezeFreezes(fields[k]); }
    case _ =>
  }

  lemma FreezeOfThawItems(items: seq<Value>)
    requires forall i | 0 <= i < |items| :: Freeze(Thaw(items[i])) == Freeze(items[i])
    ensures Freeze(Thaw(List(items))) == Freeze(List(items)) && Freeze(Thaw(Tuple(items))) == Freeze(Tuple(items))
  {
  }

  lemma FreezeOfThawFields(fields: map<string, Value>)
    requires forall k | k in fields :: Freeze(Thaw(fields[k])) == Freeze(fields[k])
    ensures Freeze(Thaw(Dict(fields))) == Freeze(Dict(fields)) && Freeze(Thaw(Proxy(fields))) == Freeze(Proxy(fields))
  {
  }

  /** Thawing forgets nothing that freezing keeps, ... */
  lemma {:induction false} FreezeOfThaw(v: Value)
    ensures Freeze(Thaw(v)) == Freeze(v)
  {
    match v
    case List(items) => forall i | 0 <= i < |items| { FreezeOfThaw(items[i]); } FreezeOfThawItems(items);
    case Tuple(items) => forall i | 0 <= i < |items| { FreezeOfThaw(items[i]); } FreezeOfThawItems(items);
    case Dict(fields) => forall k | k in fields { FreezeOfThaw(fields[k]); } FreezeOfThawFields(fields);
    case Proxy(fields) => forall k | k in fields { FreezeOfThaw(fields[k]); } FreezeOfThawFields(fields);
    case _ =>
  }

  lemma ThawOfFreezeItems(items: seq<Value>)
    requires forall i | 0 <= i < |items| :: Thaw(Freeze(items[i])) == Thaw(items[i])
    ensures Thaw(Freeze(List(items))) == Thaw(List(items)) && Thaw(Freeze(Tuple(items))) == Thaw(Tuple(items))
  {
  }

  lemma ThawOfFreezeFields(fields: map<string, Value>)
    requires forall k | k in fields :: Thaw(Freeze(fields[k])) == Thaw(fields[k])
    ensures Thaw(Freeze(Dict(fields))) == Thaw(Dict(fields)) && Thaw(Freeze(Proxy(fields))) == Thaw(Proxy(fields))
  {
  }

  /** ... and freezing nothing that thawing keeps. */
  lemma {:induction false} ThawOfFreeze(v: Value)
    ensures Thaw(Freeze(v)) == Thaw(v)
  {
    match v
    case List(items) => forall i | 0 <= i < |items| { ThawOfFreeze(items[i]); } ThawOfFreezeItems(items);
    case Tuple(items) => forall i | 0 <= i < |items| { ThawOfFreeze(items[i]); } ThawOfFreezeItems(items);
    case Dict(fields) => forall k | k in fields { ThawOfFreeze(fields[k]); } ThawOfFreezeFields(fields);
    case Proxy(fields) => forall k | k in fields { ThawOfFreeze(fields[k]); } ThawOfFreezeFields(fields);
    case _ =>
  }

  /** So a frozen value comes back from a round through its thawed copy. */
  lemma {:induction false} FrozenRoundTrip(v: Value)
    requires Frozen(v)
    ensures Freeze(Thaw(v)) == v
  {
    FreezeOfThaw(v);
    FreezeFreezes(v);
  }

  // ---------------------------------------------------------------- the sink

  datatype Event = Event(runId: string, eventType: string, phase: string, payload: Value, number: Option<int>)

  /** How an observer's call ends: a `BaseException` that is no `Exception` - a cancellation, a
      `SystemExit` - escapes every handler around it. */
  datatype Conduct = Fine | Raised | TimedOut | Escapes

  /** What the store's call comes to: something with the fields of an event and a payload that can be
      copied; something that lacks a field, or whose payload cannot be copied because there is a
      lock in it, say, or a cycle; an exception or timeout; or an escape. Which class the object
      has plays no part. */
  datatype StoreReply = Stored(event: Event) | Unreadable | Failed | Escaped

  /** What memory holds: an event, or something unreadable that a store returned in its place. */
  datatype Record = Kept(event: Event) | Alien

  /** Observers may answer by the position of the event as well as by what they are shown. */
  type Store = (nat, Event) -> StoreReply

  type Subscriber = (nat, nat, Event) -> Conduct      // who, position, event

  datatype Observers = Observers(store: Option<Store>, subscriber: Subscriber)

  function Detached(e: Event): Event { e.(payload := Freeze(e.payload)) }

  function Answer(o: Observers, position: nat, e: Event): StoreReply {
    if o.store == None then Stored(Detached(e)) else o.store.value(position, Detached(e))
  }

  /** What memory keeps of an event that reaches it. */
  function Recorded(o: Observers, position: nat, e: Event): Record {
    match Answer(o, position, e)
    case Stored(stored) => Kept(stored)
    case Unreadable => Alien
    case _ => Kept(Detached(e))
  }

  predicate Tells(o: Observers, who: nat, position: nat, e: Event) {
    o.subscriber(who, position, Detached(e)) != Escapes
  }

  /** The exact condition for an event to be appended without anything raised: the store does not
      escape, and if anybody subscribes, the record can be read and copied and no subscriber
      escapes. */
  predicate Passes(o: Observers, subscribers: nat, position: nat, e: Event) {
    && Answer(o, position, e) != Escaped
    && (subscribers > 0 ==>
          var r := Recorded(o, position, e);
          r.Kept? && forall i | 0 <= i < subscribers :: Tells(o, i, position, r.event))
  }

  /** Subscriber `k` is the first to escape. */
  predicate FirstEscape(o: Observers, subscribers: nat, position: nat, e: Event, k: nat) {
    k < subscribers && !Tells(o, k, position, e) && forall i | 0 <= i < k :: Tells(o, i, position, e)
  }

  /** The calls to the first `n` subscribers, each with a frozen copy of its own. */
  function Copies(n: nat, e: Event): seq<(nat, Event)> { seq(n, i => (i, Detached(e))) }

  /** The same event, and nothing in the copy can be changed. */
  ghost predicate FrozenCopy(copy: Event, e: Event) {
    && copy.runId == e.runId && copy.eventType == e.eventType && copy.phase == e.phase && copy.number == e.number
    && Frozen(copy.payload) && Thaw(copy.payload) == Thaw(e.payload)
  }

  lemma DetachedIsFrozenCopy(e: Event)
    ensures FrozenCopy(Detached(e), e)
  {
    FreezeFreezes(e.payload);
    ThawOfFreeze(e.payload);
  }

  /** What memory holds in the end: the event itself, unless a store answers with something else. */
  lemma MemoryKeepsEvents(o: Observers, position: nat, e: Event)
    ensures var r := Recorded(o, position, e);
            if o.store == None || Answer(o, position, e).Failed? then r.Kept? && FrozenCopy(r.event, e)
            else Answer(o, position, e).Escaped? || r == match Answer(o, position, e)
                                                         case Stored(stored) => Kept(stored)
                                                         case _ => Alien
  {
    DetachedIsFrozenCopy(e);
  }

  /** Every subscriber is told, in order, by a frozen copy. */
  lemma EverybodyIsTold(n: nat, e: Event)
    ensures |Copies(n, e)| == n
    ensures forall i | 0 <= i < n :: Copies(n, e)[i].0 == i && FrozenCopy(Copies(n, e)[i].1, e)
  {
    DetachedIsFrozenCopy(e);
  }

  class EventSink {
    const observers: Observers
    var subscribers: nat
    var memory: seq<Record>
    var notices: seq<(nat, Event)>      // what each subscriber has been called with

    constructor (observers: Observers)
      ensures this.observers == observers && subscribers == 0 && memory == [] && notices == []
    {
      this.observers := observers;
      subscribers, memory, notices := 0, [], [];
    }

    method Subscribe()
      modifies this
      ensures subscribers == old(subscribers) + 1 && memory == old(memory) && notices == old(notices)
    {
      subscribers := subscribers + 1;
    }

    /** None stands for what is raised: the error of reading the record's fields or of copying its
        payload for a subscriber, both outside the handlers, or an observer's escape. */
    method Append(event: Event) returns (r: Option<Record>)
      modifies this
      ensures subscribers == old(subscribers)
      ensures r.Some? <==> Passes(observers, subscribers, |old(memory)|, event)
      ensures var recorded := Recorded(observers, |old(memory)|, event);
              && memory == old(memory) + (if Answer(observers, |old(memory)|, event) == Escaped then [] else [recorded])
              && (r.Some? ==> r.value == recorded)
              && (r.Some? && recorded.Kept? ==> notices == old(notices) + Copies(subscribers, recorded.event))
              && (Answer(observers, |old(memory)|, event) == Escaped || recorded.Alien? ==> notices == old(notices))
              && (r == None && Answer(observers, |old(memory)|, event) != Escaped && recorded.Kept? ==>
                    exists k: nat ::
                      FirstEscape(observers, subscribers, |old(memory)|, recorded.event, k)
                      && notices == old(notices) + Copies(k + 1, recorded.event))
    {
      var position := |memory|;
      var detached := Detached(event);
      var recorded := Kept(detached);
      if observers.store != None {
        match observers.store.value(position, detached)
        case Stored(stored) => recorded := Kept(stored);
        case Unreadable => recorded := Alien;
        case Failed =>                            // swallowed
        case Escaped => return None;
      }
      memory := memory + [recorded];
      for i := 0 to subscribers
        invariant subscribers == old(subscribers) && memory == old(memory) + [recorded]
        invariant i > 0 ==> recorded.Kept?
        invariant recorded.Kept? ==>
          && notices == old(notices) + Copies(i, recorded.event)
          && forall k | 0 <= k < i :: Tells(observers, k, position, recorded.event)
        invariant recorded.Alien? ==> notices == old(notices)
      {
        if recorded.Alien? { return None; }
        var copy := Detached(recorded.event);
        notices := notices + [(i, copy)];
        match observers.subscriber(i, position, copy)
        case Fine =>
        case Raised =>                            // swallowed
        case TimedOut =>                          // swallowed
        case Escapes =>
          assert FirstEscape(observers, subscribers, position, recorded.event, i);
          return None;
      }
      r := Some(recorded);
    }
  }

  // ---------------------------------------------------------------- several events in a row

  /** The records of events appended one after the other to a memory of `position` records. */
  function RecordedAll(o: Observers, position: nat, events: seq<Event>): (r: seq<Record>)
    ensures |r| == |events|
  {
    if events == [] then []
    else
      var n := |events| - 1;
      RecordedAll(o, position, events[..n]) + [Recorded(o, position + n, events[n])]
  }

  /** A row of events comes through. */
  predicate ComesThrough(o: Observers, subscribers: nat, position: nat, events: seq<Event>) {
    forall i | 0 <= i < |events| :: Passes(o, subscribers, position + i, events[i])
  }

  lemma {:induction false} RecordedNext(o: Observers, position: nat, events: seq<Event>, next: Event)
    ensures RecordedAll(o, position, events + [next])
         == RecordedAll(o, position, events) + [Recorded(o, position + |events|, next)]
  {
    assert (events + [next])[..|events|] == events;
  }

  /** A row comes through with one more event exactly if that one passes, too. */
  lemma ComesThroughNext(o: Observers, subscribers: nat, position: nat, events: seq<Event>, next: Event)
    ensures ComesThrough(o, subscribers, position, events + [next])
       <==> ComesThrough(o, subscribers, position, events) && Passes(o, subscribers, position + |events|, next)
  {
    var all := events + [next];
    assert all[|events|] == next;
    assert forall i | 0 <= i < |events| :: all[i] == events[i];
  }
}
