/** The stored session of one account: the credential store of the system, the tombstone file that
    overrules it, and the plaintext file of older versions. Every call may be cut short by a crash,
    and every step of it may fail. */
module Credentials {
  import opened Wrappers

  type Token = string

  datatype Disk = Disk(store: Option<Token>, marker: bool, legacy: Option<Token>)

  /** How a call of `save_token` goes: it stops before step `reached` if that is below its four
      steps, and these are the steps that fail. A store that fails changes nothing. */
  datatype Fate = Fate(reached: nat, markerFails: bool, storeFails: bool, removeFails: bool, legacyFails: bool)

  /** How a call of `load_with_store` goes. */
  datatype Luck = Luck(readFails: bool, writeFails: bool, markerFails: bool, legacyFails: bool)

  datatype Event = Save(token: Option<Token>, fate: Fate) | Load(luck: Luck)

  /** The tombstone has been written. */
  predicate Marks(e: Event) {
    e.Save? && e.fate.reached >= 1 && !e.fate.markerFails
  }

  /** The store has been written to or deleted from. */
  predicate Stores(e: Event) {
    e.Save? && e.fate.reached >= 2 && !e.fate.storeFails
  }

  predicate Unmarks(e: Event) {
    Stores(e) && e.token.Some? && e.fate.reached >= 3 && !e.fate.removeFails
  }

  function Filtered(token: Option<Token>): Option<Token> {
    if token == Some("") then None else token
  }

  function Saved(d: Disk, token: Option<Token>, f: Fate): Disk {
    var e := Save(token, f);
    Disk(if Stores(e) then token else d.store,
         (d.marker || Marks(e)) && !Unmarks(e),
         if f.reached >= 4 && !f.legacyFails then None else d.legacy)
  }

  /** The token handed to the program, and the disk afterwards. */
  function Loaded(d: Disk, l: Luck): (Option<Token>, Disk) {
    var gone := if l.legacyFails then d.legacy else None;
    if d.marker then (None, d.(legacy := gone))
    else
      var stored := if l.readFails then None else Filtered(d.store);
      var legacy := Filtered(d.legacy);
      var token := if stored.Some? then stored else legacy;
      var migrates := legacy.Some?;
      (token, Disk(if migrates && !l.writeFails then token else d.store,
                   migrates && l.writeFails && !l.markerFails, gone))
  }

  class AuthFiles {
    var store: Option<Token>
    var marker: bool
    var legacy: Option<Token>

    function Now(): Disk
      reads this
    {
      Disk(store, marker, legacy)
    }

    constructor (d: Disk)
      ensures Now() == d
    {
      store, marker, legacy := d.store, d.marker, d.legacy;
    }

    method SaveToken(token: Option<Token>, f: Fate)
      modifies this
      ensures Now() == Saved(old(Now()), token, f)
    {
      if f.reached < 1 { return; }
      if !f.markerFails { marker := true; }
      if f.reached < 2 { return; }
      var ok := !f.storeFails;
      if ok { store := token; }
      if f.reached < 3 { return; }
      if ok && token.Some? {
        if !f.removeFails { marker := false; }
      }
      if f.reached < 4 { return; }
      if !f.legacyFails { legacy := None; }
    }

    method LoadToken(l: Luck) returns (token: Option<Token>)
      modifies this
      ensures (token, Now()) == Loaded(old(Now()), l)
    {
      if marker {
        if !l.legacyFails { legacy := None; }
        return None;
      }
      var stored := if l.readFails then None else Filtered(store);
      var plain := Filtered(legacy);
      token := if stored.Some? then stored else plain;
      if plain.Some? && token.Some? {
        if !l.writeFails {
          store := token;
        } else if !l.markerFails {
          marker := true;
        }
      }
      if !l.legacyFails { legacy := None; }
    }
  }

  // ---------------------------------------------------------------- whole lives

  function After(d: Disk, e: Event): Disk {
    match e
    case Save(token, fate) => Saved(d, token, fate)
    case Load(luck) => Loaded(d, luck).1
  }

  function Run(d: Disk, events: seq<Event>): Disk {
    if events == [] then d else After(Run(d, events[..|events| - 1]), events[|events| - 1])
  }

  /** The startup load leaves no plaintext behind, and hands on exactly what it could keep: if it
      could not, this once the session lives in memory only. */
  lemma StartupMigrates(d: Disk, l: Luck)
    requires !l.legacyFails
    ensures var (token, t) := Loaded(d, l);
            && t.legacy == None
            && (token.Some? && Filtered(d.legacy).Some? ==>
                  if l.writeFails then t.store == d.store && t.marker == !l.markerFails
                  else t.store == token && !t.marker)
            && (!d.marker && Filtered(d.legacy).Some? ==>
                  token == if l.readFails || Filtered(d.store) == None then d.legacy else d.store)
  {
  }

  /** No session is lost by the migration: what one load has handed on, the next one hands on as well, if
      the store can be written then and read later. */
  lemma MigrationKeepsSession(d: Disk, l: Luck, next: Luck)
    requires !l.writeFails && !next.readFails && Loaded(d, l).0.Some? && !l.readFails
    ensures Loaded(Loaded(d, l).1, next).0 == Loaded(d, l).0
  {
  }

  /** The token is that of a save, and no save since has got as far as its tombstone or the store. */
  ghost predicate FromSave(events: seq<Event>, t: Token, i: nat) {
    && i < |events| && Stores(events[i]) && events[i].token == Some(t)
    && forall j | i < j < |events| :: !Marks(events[j]) && !Stores(events[j])
  }

  ghost predicate FromStart(d: Disk, events: seq<Event>, t: Token) {
    d.store == Some(t) && !d.marker && forall j | 0 <= j < |events| :: !Marks(events[j]) && !Stores(events[j])
  }

  /** What an unoverruled store contains, and where it is from. */
  lemma {:induction false} StoreIsNewest(d: Disk, events: seq<Event>, t: Token)
    requires d.legacy == None
    ensures Run(d, events).legacy == None
    ensures Run(d, events).store == Some(t) && !Run(d, events).marker ==>
              FromStart(d, events, t) || exists i :: FromSave(events, t, i)
    decreases |events|
  {
    if events != [] {
      var n := |events| - 1;
      var rest, last := events[..n], events[n];
      StoreIsNewest(d, rest, t);
      if Run(d, events).store == Some(t) && !Run(d, events).marker {
        if Stores(last) {
          assert FromSave(events, t, n);
        } else if !FromStart(d, rest, t) {
          var i :| FromSave(rest, t, i);
          assert FromSave(events, t, i);
        }
      }
    }
  }

  /** Once a save has written its tombstone no older token is ever loaded again, whatever fails or
      crashes then and later: a loaded token is that of this save or of a later one. */
  lemma NoOlderToken(d: Disk, events: seq<Event>, j: nat, l: Luck, t: Token)
    requires d.legacy == None && j < |events| && Marks(events[j])
    requires Loaded(Run(d, events), l).0 == Some(t)
    ensures exists i :: j <= i && FromSave(events, t, i)
  {
    StoreIsNewest(d, events, t);
    var i :| FromSave(events, t, i);
    assert j <= i;
  }

  /** After a save that went through, its token and no other is loaded until the next save, for as
      long as the store can be read. */
  lemma {:induction false} SavedTokenIsLoaded(d: Disk, token: Token, f: Fate, loads: seq<Event>, l: Luck)
    requires Saved(d, Some(token), f).legacy == None && token != "" && Unmarks(Save(Some(token), f))
    requires forall e | e in loads :: e.Load?
    ensures var s := Run(Saved(d, Some(token), f), loads);
            s == Saved(d, Some(token), f) && Loaded(s, l).0 == if l.readFails then None else Some(token)
    decreases |loads|
  {
    if loads != [] {
      var n := |loads| - 1;
      assert loads[n] in loads && forall e | e in loads[..n] :: e in loads;
      SavedTokenIsLoaded(d, token, f, loads[..n], l);
    }
  }

  /** A save that gets to its end removes the plaintext file of older versions. */
  lemma SavesLeaveNoPlaintext(d: Disk, token: Option<Token>, f: Fate)
    ensures Saved(d, token, f).legacy == None <==> d.legacy == None || (f.reached >= 4 && !f.legacyFails)
  {
  }

  /** Where a save may stop, and what is there then: the tombstone comes first, the token next, and only
      then does the tombstone go. */
  lemma StepByStep(d: Disk, token: Token)
    ensures var after := (k: nat) => Saved(d, Some(token), Fate(k, false, false, false, false));
            && after(0) == d
            && after(1) == d.(marker := true)
            && after(2) == d.(marker := true, store := Some(token))
            && after(3) == d.(marker := false, store := Some(token))
            && after(4) == Disk(Some(token), false, None)
  {
  }

  /** After a logout nothing is loaded until a login has stored its token: it is enough that the
      tombstone was written or the stored token deleted ... */
  lemma {:induction false} LogoutIsFinal(d: Disk, f: Fate, events: seq<Event>, l: Luck)
    requires Saved(d, None, f).legacy == None && (Marks(Save(None, f)) || Stores(Save(None, f)))
    requires forall e | e in events :: Stores(e) ==> e.token == None
    ensures var s := Run(Saved(d, None, f), events);
            (s.marker || s.store == None) && s.legacy == None && Loaded(s, l).0 == None
    decreases |events|
  {
    if events != [] {
      var n := |events| - 1;
      assert events[n] in events && forall e | e in events[..n] :: e in events;
      LogoutIsFinal(d, f, events[..n], l);
    }
  }

  /** ... and it is necessary, unless there was nothing to be loaded before. */
  lemma LogoutExactly(d: Disk, f: Fate, l: Luck)
    requires d.legacy == None
    ensures Loaded(Saved(d, None, f), l).0 == None
       <==> Marks(Save(None, f)) || Stores(Save(None, f)) || Loaded(d, l).0 == None
  {
  }
}
