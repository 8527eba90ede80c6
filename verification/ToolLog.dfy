/** The log of tool calls a stream of chunks builds up. Dictionaries are records here: an absent
    key and an empty string read the same, as the code asks only for truth values, except for
    `result`, whose presence counts. Arguments and results are any values, taken as strings. */
module ToolLog {
  import opened Wrappers

  datatype Outcome = Outcome(result: string, status: string)

  datatype Entry = Entry(id: string, name: string, args: string, displayName: string, outcome: Option<Outcome>)

  type Log = seq<Entry>

  // ---------------------------------------------------------------- one chunk at a time

  /** Where an id is logged first. */
  function Find(log: Log, id: string): (k: nat)
    ensures k <= |log| && forall j | 0 <= j < k :: log[j].id != id
    ensures k < |log| ==> log[k].id == id
  {
    if log == [] || log[0].id == id then 0 else 1 + Find(log[1..], id)
  }

  function Upserted(log: Log, call: Entry): Log {
    var k := Find(log, call.id);
    if call.id == "" || k == |log| then log + [call]
    else
      var e := log[k];
      log[k := e.(args := if call.args != "" then call.args else e.args,
                  displayName := if call.displayName != "" then call.displayName else e.displayName)]
  }

  /** A result is for this entry: by its id, or else by its name when nothing is attached yet. */
  predicate Takes(e: Entry, id: string, name: string) {
    (id != "" && e.id == id) || (name != "" && e.name == name && e.outcome == None)
  }

  function Target(log: Log, id: string, name: string): (k: nat)
    ensures k <= |log| && forall j | 0 <= j < k :: !Takes(log[j], id, name)
    ensures k < |log| ==> Takes(log[k], id, name)
  {
    if log == [] || Takes(log[0], id, name) then 0 else 1 + Target(log[1..], id, name)
  }

  function Attached(log: Log, id: string, name: string, outcome: Outcome): Log {
    var k := Target(log, id, name);
    if k < |log| then log[k := log[k].(outcome := Some(outcome))]
    else if id != "" || name != "" then log + [Entry(id, name, "", "", Some(outcome))]
    else log
  }

  class ToolCalls {
    var log: Log

    constructor ()
      ensures log == []
    {
      log := [];
    }

    method UpsertToolCall(call: Entry)
      modifies this
      ensures log == Upserted(old(log), call)
    {
      if call.id != "" {
        for i := 0 to |log|
          invariant log == old(log) && forall j | 0 <= j < i :: log[j].id != call.id
        {
          if log[i].id == call.id {
            assert Find(log, call.id) == i;
            if call.args != "" { log := log[i := log[i].(args := call.args)]; }
            if call.displayName != "" { log := log[i := log[i].(displayName := call.displayName)]; }
            return;
          }
        }
      }
      log := log + [call];
    }

    method AttachToolResult(id: string, name: string, result: string, status: string)
      modifies this
      ensures log == Attached(old(log), id, name, Outcome(result, status))
    {
      for i := 0 to |log|
        invariant log == old(log) && forall j | 0 <= j < i :: !Takes(log[j], id, name)
      {
        if id != "" && log[i].id == id {
          log := log[i := log[i].(outcome := Some(Outcome(result, status)))];
          return;
        }
        if name != "" && log[i].name == name && log[i].outcome == None {
          log := log[i := log[i].(outcome := Some(Outcome(result, status)))];
          return;
        }
      }
      if id != "" || name != "" {
        log := log + [Entry(id, name, "", "", Some(Outcome(result, status)))];
      }
    }
  }

  // ---------------------------------------------------------------- whole streams

  datatype Chunk = Call(entry: Entry) | Result(id: string, name: string, outcome: Outcome)

  function After(log: Log, chunk: Chunk): Log {
    match chunk
    case Call(entry) => Upserted(log, entry)
    case Result(id, name, outcome) => Attached(log, id, name, outcome)
  }

  function Run(log: Log, chunks: seq<Chunk>): Log {
    if chunks == [] then log else After(Run(log, chunks[..|chunks| - 1]), chunks[|chunks| - 1])
  }

  predicate UniqueIds(log: Log) {
    forall i, j | 0 <= i < j < |log| :: log[i].id != "" ==> log[i].id != log[j].id
  }

  /** `t` is `s` with entries completed and appended: none removed, moved or renamed, and an
      attached result is never taken off again. */
  predicate Grown(s: Log, t: Log) {
    && |s| <= |t|
    && forall k | 0 <= k < |s| ::
         s[k].id == t[k].id && s[k].name == t[k].name && (s[k].outcome.Some? ==> t[k].outcome.Some?)
  }

  lemma ChunkGrows(log: Log, chunk: Chunk)
    requires UniqueIds(log)
    ensures Grown(log, After(log, chunk)) && UniqueIds(After(log, chunk))
  {
  }

  /** Over any stream at all entries stay where they are, and no id is logged twice. */
  lemma {:induction false} RunGrows(log: Log, chunks: seq<Chunk>)
    requires UniqueIds(log)
    ensures Grown(log, Run(log, chunks)) && UniqueIds(Run(log, chunks))
    decreases |chunks|
  {
    if chunks != [] {
      RunGrows(log, chunks[..|chunks| - 1]);
      ChunkGrows(Run(log, chunks[..|chunks| - 1]), chunks[|chunks| - 1]);
    }
  }

  /** A result that names anything is put on one entry, in the place of what that had, or on a new one;
      all other entries stay. */
  lemma ResultIsLogged(log: Log, id: string, name: string, outcome: Outcome)
    ensures var t, k := Attached(log, id, name, outcome), Target(log, id, name);
            && (forall j | 0 <= j < |log| && j != k :: j < |t| && t[j] == log[j])
            && (k < |log| ==> |t| == |log| && t[k] == log[k].(outcome := Some(outcome)))
            && (k == |log| && id == "" && name == "" ==> t == log)
            && (k == |log| && !(id == "" && name == "") ==>
                  |t| == |log| + 1 && t[k] == Entry(id, name, "", "", Some(outcome)))
  {
  }

  // ---------------------------------------------------------------- arguments and display names

  /** The last arguments a stream carries for an id, calls without any left out. */
  function LastArgs(chunks: seq<Chunk>, id: string): string {
    if chunks == [] then ""
    else
      var last := chunks[|chunks| - 1];
      if last.Call? && last.entry.id == id && last.entry.args != "" then last.entry.args
      else LastArgs(chunks[..|chunks| - 1], id)
  }

  function LastDisplayName(chunks: seq<Chunk>, id: string): string {
    if chunks == [] then ""
    else
      var last := chunks[|chunks| - 1];
      if last.Call? && last.entry.id == id && last.entry.displayName != "" then last.entry.displayName
      else LastDisplayName(chunks[..|chunks| - 1], id)
  }

  predicate Details(e: Entry, chunks: seq<Chunk>) {
    e.args == LastArgs(chunks, e.id) && e.displayName == LastDisplayName(chunks, e.id)
  }

  /** Entries have the last details of their ids, and no call has been lost. */
  ghost predicate AllDetails(log: Log, chunks: seq<Chunk>) {
    && (forall k | 0 <= k < |log| && log[k].id != "" :: Details(log[k], chunks))
    && (forall id | id != "" && Find(log, id) == |log| ::
          LastArgs(chunks, id) == "" && LastDisplayName(chunks, id) == "")
  }

  lemma ResultKeepsDetails(log: Log, rest: seq<Chunk>, chunk: Chunk)
    requires AllDetails(log, rest) && UniqueIds(log) && chunk.Result?
    ensures AllDetails(After(log, chunk), rest + [chunk])
  {
    var t, chunks := After(log, chunk), rest + [chunk];
    assert chunks[..|chunks| - 1] == rest;
    assert forall id :: LastArgs(chunks, id) == LastArgs(rest, id);
    assert forall id :: LastDisplayName(chunks, id) == LastDisplayName(rest, id);
    forall k | 0 <= k < |t| && t[k].id != "" ensures Details(t[k], chunks) {
      if k < |log| { assert Details(log[k], rest); }
    }
    forall id | id != "" && Find(t, id) == |t| ensures LastArgs(chunks, id) == "" && LastDisplayName(chunks, id) == "" {
      StillMissing(log, t, id);
    }
  }

  lemma StillMissing(log: Log, t: Log, id: string)
    requires |log| <= |t| && (forall k | 0 <= k < |log| :: t[k].id == log[k].id) && Find(t, id) == |t|
    ensures Find(log, id) == |log|
  {
    assert forall k | 0 <= k < |log| :: t[k].id != id;
  }

  lemma CallKeepsDetails(log: Log, rest: seq<Chunk>, chunk: Chunk)
    requires AllDetails(log, rest) && UniqueIds(log) && chunk.Call?
    ensures AllDetails(After(log, chunk), rest + [chunk])
  {
    var t, chunks := After(log, chunk), rest + [chunk];
    assert chunks[..|chunks| - 1] == rest;
    forall k | 0 <= k < |t| && t[k].id != "" ensures Details(t[k], chunks) {
      if k < |log| { assert Details(log[k], rest); }
    }
    forall id | id != "" && Find(t, id) == |t| ensures LastArgs(chunks, id) == "" && LastDisplayName(chunks, id) == "" {
      StillMissing(log, t, id);
    }
  }

  /** Over any stream an entry has the last arguments and the last display name that came for its id. */
  lemma {:induction false} EntriesHaveLastDetails(chunks: seq<Chunk>)
    ensures AllDetails(Run([], chunks), chunks)
    decreases |chunks|
  {
    if chunks != [] {
      var rest, last := chunks[..|chunks| - 1], chunks[|chunks| - 1];
      EntriesHaveLastDetails(rest);
      RunGrows([], rest);
      assert chunks == rest + [last];
      if last.Call? { CallKeepsDetails(Run([], rest), rest, last); }
      else { ResultKeepsDetails(Run([], rest), rest, last); }
    }
  }

  /** The exact condition for a result to find the entry of its own call: no entry before it bears
      the name of the result and still waits for one. */
  lemma LandsOnOwnEntry(log: Log, k: nat, id: string, name: string)
    requires UniqueIds(log) && k < |log| && id != "" && log[k].id == id
    ensures Target(log, id, name) == k
       <==> forall j | 0 <= j < k :: name == "" || log[j].name != name || log[j].outcome.Some?
  {
  }

  // ---------------------------------------------------------------- orderly streams

  /** The calls of a stream, by their ids, in the order they are first heard of. */
  function Called(chunks: seq<Chunk>): seq<(string, string)> {
    if chunks == [] then []
    else
      var rest, last := Called(chunks[..|chunks| - 1]), chunks[|chunks| - 1];
      if last.Call? && !Heard(rest, last.entry.id) then rest + [(last.entry.id, last.entry.name)] else rest
  }

  predicate Heard(called: seq<(string, string)>, id: string) {
    exists k | 0 <= k < |called| :: called[k].0 == id
  }

  /** The last result the stream carries for an id. */
  function LastResult(chunks: seq<Chunk>, id: string): Option<Outcome> {
    if chunks == [] then None
    else
      var last := chunks[|chunks| - 1];
      if last.Result? && last.id == id then Some(last.outcome) else LastResult(chunks[..|chunks| - 1], id)
  }

  /** Every call has an id and comes without a result; a result follows its call; and before it come
      results for all earlier calls of the tool it names. */
  ghost predicate Orderly(chunks: seq<Chunk>) {
    chunks != [] ==>
      var rest, last := chunks[..|chunks| - 1], chunks[|chunks| - 1];
      && Orderly(rest)
      && match last
         case Call(entry) => entry.id != "" && entry.outcome == None
         case Result(id, name, _) => InTurn(rest, id, name)
  }

  ghost predicate InTurn(chunks: seq<Chunk>, id: string, name: string) {
    exists k | 0 <= k < |Called(chunks)| :: Called(chunks)[k].0 == id && EarlierAnswered(chunks, k, name)
  }

  ghost predicate EarlierAnswered(chunks: seq<Chunk>, k: nat, name: string)
    requires k < |Called(chunks)|
  {
    forall j | 0 <= j < k :: name == "" || Called(chunks)[j].1 != name || LastResult(chunks, Called(chunks)[j].0).Some?
  }

  /** The log holds the calls in order, each with the last result carried for its own id. */
  ghost predicate Mirrors(log: Log, chunks: seq<Chunk>) {
    && |log| == |Called(chunks)|
    && forall k | 0 <= k < |log| ::
         log[k].id == Called(chunks)[k].0 && log[k].name == Called(chunks)[k].1
         && log[k].id != "" && log[k].outcome == LastResult(chunks, log[k].id)
  }

  lemma {:induction false} UnheardUnanswered(chunks: seq<Chunk>, id: string)
    requires Orderly(chunks) && !Heard(Called(chunks), id)
    ensures LastResult(chunks, id) == None
    decreases |chunks|
  {
    if chunks != [] {
      var rest := chunks[..|chunks| - 1];
      assert forall k | 0 <= k < |Called(rest)| :: Called(rest)[k] == Called(chunks)[k];
      UnheardUnanswered(rest, id);
    }
  }

  lemma CallIsMirrored(log: Log, rest: seq<Chunk>, entry: Entry)
    requires Mirrors(log, rest) && UniqueIds(log) && Orderly(rest) && entry.id != "" && entry.outcome == None
    ensures Mirrors(Upserted(log, entry), rest + [Call(entry)])
  {
    var chunks := rest + [Call(entry)];
    assert chunks[..|chunks| - 1] == rest;
    assert forall id :: LastResult(chunks, id) == LastResult(rest, id);
    if !Heard(Called(rest), entry.id) {
      UnheardUnanswered(rest, entry.id);
      assert Find(log, entry.id) == |log|;
    } else {
      var k :| 0 <= k < |Called(rest)| && Called(rest)[k].0 == entry.id;
      assert log[k].id == entry.id;
    }
  }

  lemma ResultIsMirrored(log: Log, rest: seq<Chunk>, id: string, name: string, outcome: Outcome)
    requires Mirrors(log, rest) && UniqueIds(log) && InTurn(rest, id, name)
    ensures Mirrors(Attached(log, id, name, outcome), rest + [Result(id, name, outcome)])
  {
  }

  /** In an orderly stream every result ends on the entry with its own id. */
  lemma {:induction false} ResultsFindTheirCalls(chunks: seq<Chunk>)
    requires Orderly(chunks)
    ensures Mirrors(Run([], chunks), chunks) && UniqueIds(Run([], chunks))
    decreases |chunks|
  {
    RunGrows([], chunks);
    if chunks != [] {
      var rest, last := chunks[..|chunks| - 1], chunks[|chunks| - 1];
      ResultsFindTheirCalls(rest);
      assert chunks == rest + [last];
      match last
      case Call(entry) => CallIsMirrored(Run([], rest), rest, entry);
      case Result(id, name, outcome) => ResultIsMirrored(Run([], rest), rest, id, name, outcome);
    }
  }

  /** Calls come with ids and without results, and a result names an id that has been heard. */
  ghost predicate Regular(chunks: seq<Chunk>) {
    chunks != [] ==>
      var rest, last := chunks[..|chunks| - 1], chunks[|chunks| - 1];
      && Regular(rest)
      && match last
         case Call(entry) => entry.id != "" && entry.outcome == None
         case Result(id, _, _) => Heard(Called(rest), id)
  }

  predicate Lands(log: Log, id: string, name: string) {
    var k := Target(log, id, name);
    k < |log| && log[k].id == id
  }

  /** Every result is put on the entry with its own id when it arrives. */
  ghost predicate AllLand(chunks: seq<Chunk>) {
    chunks != [] ==>
      var rest, last := chunks[..|chunks| - 1], chunks[|chunks| - 1];
      AllLand(rest) && (last.Result? ==> Lands(Run([], rest), last.id, last.name))
  }

  lemma LandsInTurn(log: Log, rest: seq<Chunk>, id: string, name: string)
    requires Mirrors(log, rest) && UniqueIds(log) && Heard(Called(rest), id)
    ensures Lands(log, id, name) <==> InTurn(rest, id, name)
  {
    var k: nat :| k < |Called(rest)| && Called(rest)[k].0 == id;
    LandsOnOwnEntry(log, k, id, name);
    assert EarlierAnswered(rest, k, name) <==>
      forall j | 0 <= j < k :: name == "" || log[j].name != name || log[j].outcome.Some?;
    assert forall j: nat | j < |log| && log[j].id == id :: j == k;
  }

  /** And only in an orderly one: over regular streams the order is exactly what it takes. */
  lemma {:induction false} OrderIsWhatItTakes(chunks: seq<Chunk>)
    requires Regular(chunks)
    ensures AllLand(chunks) <==> Orderly(chunks)
    decreases |chunks|
  {
    if chunks != [] {
      var rest, last := chunks[..|chunks| - 1], chunks[|chunks| - 1];
      OrderIsWhatItTakes(rest);
      if Orderly(rest) && last.Result? {
        ResultsFindTheirCalls(rest);
        LandsInTurn(Run([], rest), rest, last.id, last.name);
      }
    }
  }

  /** Without the order it goes wrong: of two calls of one tool the second answers first, its
      result is put on the first call, and is gone when that one's own result arrives. */
  lemma OutOfOrderLosesResult(a: Entry, b: Entry, resultA: Outcome, resultB: Outcome)
    requires a.id != "" && b.id != "" && a.id != b.id && a.name == b.name != ""
    requires a.outcome == None && b.outcome == None
    ensures Run([], [Call(a), Call(b), Result(b.id, b.name, resultB), Result(a.id, a.name, resultA)])
         == [a.(outcome := Some(resultA)), b]
  {
    var all := [Call(a), Call(b), Result(b.id, b.name, resultB), Result(a.id, a.name, resultA)];
    assert all[..3][..2] == [Call(a), Call(b)] && all[..3][2] == Result(b.id, b.name, resultB);
    assert [Call(a), Call(b)][..1] == [Call(a)] && [Call(a)][..0] == [];
    assert Run([], [Call(a)]) == [a];
    assert Run([], [Call(a), Call(b)]) == [a, b];
    assert Target([a, b], b.id, b.name) == 0;
    assert Run([], all[..3]) == [a.(outcome := Some(resultB)), b];
    assert Target([a.(outcome := Some(resultB)), b], a.id, a.name) == 0;
  }
}
