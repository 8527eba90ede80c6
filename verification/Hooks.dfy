/** The hook pipeline: registered hooks run in order, may change the fields they declared, may end
    the stage, and fail open or closed; every step is reported to the event sink. A handler is
    what it answers: `Answers` gives the response of each registration to the invocation it is
    shown, so a handler may be as stateful as it likes. */
module Hooks {
  import opened Wrappers
  import opened Events

  datatype Stage =
    | BeforeRun | TransformContext | BeforeModel | AfterModel | BeforeTool | AfterTool
    | BeforeCompaction | AfterCompaction | BeforeFinish

  function Name(stage: Stage): string {
    match stage
    case BeforeRun => "before_run"
    case TransformContext => "transform_context"
    case BeforeModel => "before_model"
    case AfterModel => "after_model"
    case BeforeTool => "before_tool"
    case AfterTool => "after_tool"
    case BeforeCompaction => "before_compaction"
    case AfterCompaction => "after_compaction"
    case BeforeFinish => "before_finish"
  }

  /** What hooks of a stage may change at all. */
  function Allowed(stage: Stage): set<string> {
    match stage
    case TransformContext => {"messages", "context"}
    case BeforeCompaction => {"budget"}
    case AfterCompaction => {"replacement"}
    case _ => {}
  }

  datatype Invocation = Invocation(runId: string, stage: Stage, operation: string,
                                   data: map<string, Value>, metadata: map<string, Value>)

  datatype Kind = Continue | Modify | Reject | Pause {
    predicate Stops() { this == Reject || this == Pause }
  }

  datatype Cause = Exception(message: string) | NotADecision(typeName: string) | Undeclared(fields: set<string>)

  datatype Reason = Given(text: string) | TimeoutOf(hook: string) | FailureOf(hook: string, cause: Cause)

  datatype Decision = Decision(kind: Kind, patch: map<string, Value>, reason: Reason)

  const PROCEED := Decision(Continue, map[], Given(""))

  datatype FailureMode = FailOpen | FailClosed

  datatype Spec = Spec(name: string, stage: Stage, priority: int, mode: FailureMode, mutable: set<string>)

  datatype Registered = Registered(priority: int, number: nat, spec: Spec)

  type Bucket = seq<Registered>

  /** What a handler does with its turn. */
  datatype Response =
    | Returned(decision: Decision) | Nothing | WrongType(typeName: string) | Raised(message: string) | TimedOut

  type Answers = (nat, Invocation) -> Response

  // ---------------------------------------------------------------- one hook

  function ThawAll(m: map<string, Value>): map<string, Value> { map k | k in m :: Thaw(m[k]) }

  function FreezeAll(m: map<string, Value>): map<string, Value> { map k | k in m :: Freeze(m[k]) }

  function Patched(inv: Invocation, patch: map<string, Value>): Invocation {
    inv.(data := FreezeAll(ThawAll(inv.data) + ThawAll(patch)))
  }

  /** `decision` is what the hook answered, as far as it answered. */
  datatype Effect = Effect(current: Invocation, terminal: Decision, status: string, decision: Decision)

  function Failing(spec: Spec, reason: Reason): Decision {
    if spec.mode == FailClosed then Decision(Reject, map[], reason) else PROCEED
  }

  function Attempt(spec: Spec, response: Response, current: Invocation): Effect {
    match response
    case TimedOut => Effect(current, Failing(spec, TimeoutOf(spec.name)), "timeout", PROCEED)
    case Raised(message) => Effect(current, Failing(spec, FailureOf(spec.name, Exception(message))), "failed", PROCEED)
    case WrongType(t) => Effect(current, Failing(spec, FailureOf(spec.name, NotADecision(t))), "failed", PROCEED)
    case Nothing => Effect(current, PROCEED, "success", PROCEED)
    case Returned(d) =>
      if d.kind == Modify then
        var invalid := d.patch.Keys - spec.mutable;
        if invalid != {} then Effect(current, Failing(spec, FailureOf(spec.name, Undeclared(invalid))), "failed", d)
        else Effect(Patched(current, d.patch), PROCEED, "success", d)
      else Effect(current, if d.kind.Stops() then d else PROCEED, "success", d)
  }

  // ---------------------------------------------------------------- the pipeline

  datatype Report = Report(hook: string, number: nat, status: string, decision: Kind)

  datatype Outcome = Outcome(invocation: Invocation, decision: Decision, reports: seq<Report>)

  function ReportOf(r: Registered, e: Effect): Report {
    Report(r.spec.name, r.number, e.status, if e.terminal.kind != Continue then e.terminal.kind else e.decision.kind)
  }

  function Executed(reports: seq<Report>): seq<string> {
    seq(|reports|, i requires 0 <= i < |reports| => reports[i].hook)
  }

  function Pipeline(bucket: Bucket, inv: Invocation, answers: Answers): Outcome {
    if bucket == [] then Outcome(inv, PROCEED, [])
    else
      var e := Attempt(bucket[0].spec, answers(bucket[0].number, inv), inv);
      var report := ReportOf(bucket[0], e);
      if e.terminal.kind.Stops() then Outcome(e.current, e.terminal, [report])
      else
        var rest := Pipeline(bucket[1..], e.current, answers);
        rest.(reports := [report] + rest.reports)
  }

  function Started(inv: Invocation): Event {
    Event(inv.runId, "hook_stage_started", Name(inv.stage),
          Freeze(Dict(map["operation_name" := Str(inv.operation)])), None)
  }

  function KindName(kind: Kind): string {
    match kind
    case Continue => "continue"
    case Modify => "modify"
    case Reject => "reject"
    case Pause => "pause"
  }

  function Finished(inv: Invocation, decision: Kind, executed: seq<string>): Event {
    var names := seq(|executed|, i requires 0 <= i < |executed| => Str(executed[i]));
    Event(inv.runId, "hook_stage_finished", Name(inv.stage),
          Freeze(Dict(map["decision" := Str(KindName(decision)), "executed_hooks" := List(names)])), None)
  }

  function AttemptFinished(inv: Invocation, r: Report, latency: int): Event {
    Event(inv.runId, "hook_attempt_finished", Name(inv.stage),
          Freeze(Dict(map["hook" := Str(r.hook), "status" := Str(r.status),
                          "decision" := Str(KindName(r.decision)), "latency_ms" := Number(latency)])), None)
  }

  function Maker(inv: Invocation, latency: nat -> int): Report -> Event {
    (r: Report) => AttemptFinished(inv, r, latency(r.number))
  }

  /** The first event of a run, and one for every report. */
  function SoFar(start: Event, make: Report -> Event, reports: seq<Report>): (events: seq<Event>)
    ensures |events| == |reports| + 1
  {
    [start] + seq(|reports|, i requires 0 <= i < |reports| => make(reports[i]))
  }

  /** Everything a run submits to the sink. */
  function Submitted(inv: Invocation, o: Outcome, latency: nat -> int): seq<Event> {
    SoFar(Started(inv), Maker(inv, latency), o.reports) + [Finished(inv, o.decision.kind, Executed(o.reports))]
  }

  // ---------------------------------------------------------------- registration

  predicate Before(a: Registered, b: Registered) {
    a.priority < b.priority || (a.priority == b.priority && a.number < b.number)
  }

  predicate Sorted(bucket: Bucket) {
    forall i, j | 0 <= i < j < |bucket| :: Before(bucket[i], bucket[j])
  }

  /** Where sorting puts a registration in a sorted bucket. */
  function Inserted(bucket: Bucket, r: Registered): Bucket {
    if bucket == [] then [r]
    else if Before(r, bucket[0]) then [r] + bucket
    else [bucket[0]] + Inserted(bucket[1..], r)
  }

  lemma {:induction false} InsertedContents(bucket: Bucket, r: Registered)
    ensures multiset(Inserted(bucket, r)) == multiset(bucket) + multiset{r}
    decreases |bucket|
  {
    if bucket != [] {
      assert bucket == [bucket[0]] + bucket[1..];
      InsertedContents(bucket[1..], r);
    }
  }

  lemma {:induction false} InsertedMembers(bucket: Bucket, r: Registered)
    ensures forall x :: x in Inserted(bucket, r) <==> x == r || x in bucket
  {
    InsertedContents(bucket, r);
    forall x ensures x in Inserted(bucket, r) <==> x == r || x in bucket {
      assert x in Inserted(bucket, r) <==> x in multiset(Inserted(bucket, r));
    }
  }

  lemma {:induction false} InsertedIsSorted(bucket: Bucket, r: Registered)
    requires Sorted(bucket) && forall i | 0 <= i < |bucket| :: bucket[i].number < r.number
    ensures Sorted(Inserted(bucket, r))
    decreases |bucket|
  {
    if bucket != [] && !Before(r, bucket[0]) {
      var rest := Inserted(bucket[1..], r);
      InsertedIsSorted(bucket[1..], r);
      InsertedContents(bucket[1..], r);
      forall i | 0 <= i < |rest| ensures Before(bucket[0], rest[i]) {
        assert rest[i] in multiset(rest);
        assert rest[i] == r || rest[i] in bucket[1..];
      }
    }
  }

  /** The first of a sorted bucket is before all others. */
  lemma FirstIsLeast(a: Bucket, x: Registered)
    requires Sorted(a) && x in a
    ensures x == a[0] || Before(a[0], x)
  {
    var i :| 0 <= i < |a| && a[i] == x;
    if i > 0 { assert Before(a[0], a[i]); }
  }

  lemma TailContents(a: Bucket)
    requires a != []
    ensures multiset(a[1..]) == multiset(a) - multiset{a[0]} && a[0] in multiset(a)
  {
    assert a == [a[0]] + a[1..];
  }

  lemma SameMembers(a: Bucket, b: Bucket, x: Registered)
    requires multiset(a) == multiset(b) && x in a
    ensures x in b
  {
    assert x in multiset(b);
  }

  lemma SameFirst(a: Bucket, b: Bucket)
    requires Sorted(a) && Sorted(b) && multiset(a) == multiset(b) && a != [] && b != []
    ensures a[0] == b[0]
  {
    SameMembers(a, b, a[0]);
    SameMembers(b, a, b[0]);
    FirstIsLeast(a, b[0]);
    FirstIsLeast(b, a[0]);
  }

  /** There is only one way to sort: any sort of the bucket gives the same order. */
  lemma {:induction false} SortedIsUnique(a: Bucket, b: Bucket)
    requires Sorted(a) && Sorted(b) && multiset(a) == multiset(b)
    ensures a == b
    decreases |a|
  {
    assert |multiset(a)| == |a| && |multiset(b)| == |b|;
    if a != [] {
      SameFirst(a, b);
      TailContents(a);
      TailContents(b);
      SortedIsUnique(a[1..], b[1..]);
      assert a == [a[0]] + a[1..] && b == [b[0]] + b[1..];
    }
  }

  predicate SameRun(a: Invocation, b: Invocation) {
    a.runId == b.runId && a.stage == b.stage && a.operation == b.operation && a.metadata == b.metadata
  }

  /** The outcome is this one with reports put before it. */
  predicate Extends(o: Outcome, reports: seq<Report>, rest: Outcome) {
    o == rest.(reports := reports + rest.reports)
  }

  /** One turn further along the pipeline. */
  lemma PipelineTurn(o: Outcome, reports: seq<Report>, bucket: Bucket, i: nat, current: Invocation, answers: Answers,
                     e: Effect, report: Report)
    requires i < |bucket| && Extends(o, reports, Pipeline(bucket[i..], current, answers))
    requires e == Attempt(bucket[i].spec, answers(bucket[i].number, current), current)
    requires report == ReportOf(bucket[i], e)
    ensures reports + [report] <= o.reports
    ensures e.terminal.kind.Stops() ==> o == Outcome(e.current, e.terminal, reports + [report])
    ensures !e.terminal.kind.Stops() ==>
      e.terminal == PROCEED && Extends(o, reports + [report], Pipeline(bucket[i + 1..], e.current, answers))
  {
  }

  lemma SoFarNext(start: Event, make: Report -> Event, reports: seq<Report>, report: Report)
    ensures SoFar(start, make, reports + [report]) == SoFar(start, make, reports) + [make(report)]
  {
  }

  // ---------------------------------------------------------------- the bus

  /** How `enforce` ends; `Broken` is anything else that is raised. */
  datatype Verdict = Passed(invocation: Invocation) | HookRejected(reason: Reason) | HookPaused(reason: Reason) | Broken

  function VerdictOf(o: Outcome): Verdict {
    match o.decision.kind
    case Reject => HookRejected(o.decision.reason)
    case Pause => HookPaused(o.decision.reason)
    case _ => Passed(o.invocation)
  }

  /** `Aborted` is anything raised on the way. */
  datatype RunResult = Completed(outcome: Outcome) | Aborted

  /** A call of the usage recorder: the hook and its status. */
  datatype Usage = Usage(runId: string, hook: string, status: string, stage: string)

  /** A usage recorder may answer by how often it has been called as well. */
  type Recorder = (nat, Usage) -> Conduct

  function UsageOf(inv: Invocation, report: Report): Usage {
    Usage(inv.runId, report.hook, report.status, Name(inv.stage))
  }

  function UsagesOf(inv: Invocation, reports: seq<Report>): (usages: seq<Usage>)
    ensures |usages| == |reports|
  {
    seq(|reports|, i requires 0 <= i < |reports| => UsageOf(inv, reports[i]))
  }

  /** No call of the recorder, from this one on, escapes. */
  predicate RecorderStays(recorder: Option<Recorder>, position: nat, usages: seq<Usage>) {
    recorder.Some? ==> forall i | 0 <= i < |usages| :: recorder.value(position + i, usages[i]) != Escapes
  }

  lemma UsagesNext(inv: Invocation, reports: seq<Report>, report: Report)
    ensures UsagesOf(inv, reports + [report]) == UsagesOf(inv, reports) + [UsageOf(inv, report)]
  {
  }

  function Charged(recorder: Option<Recorder>, before: seq<Usage>, usages: seq<Usage>): seq<Usage> {
    if recorder.Some? then before + usages else before
  }

  lemma RecorderStaysNext(recorder: Option<Recorder>, position: nat, usages: seq<Usage>, u: Usage)
    ensures RecorderStays(recorder, position, usages + [u])
       <==> RecorderStays(recorder, position, usages)
            && (recorder.Some? ==> recorder.value(position + |usages|, u) != Escapes)
  {
    var all := usages + [u];
    assert all[|usages|] == u && forall i | 0 <= i < |usages| :: all[i] == usages[i];
  }

  /** In order, and no hook declares more than its stage allows. */
  ghost predicate BucketOk(bucket: Bucket, stage: Stage, registrations: nat) {
    && Sorted(bucket)
    && forall r | r in bucket ::
         r.number <= registrations && r.spec.stage == stage && r.priority == r.spec.priority
         && r.spec.mutable <= Allowed(stage)
  }

  lemma EmptyDifference(a: set<string>, b: set<string>)
    requires a - b == {}
    ensures a <= b
  {
    forall k | k in a ensures k in b { assert k !in a - b; }
  }

  lemma RegisterKeepsOrder(bucket: Bucket, spec: Spec, n: nat)
    requires BucketOk(bucket, spec.stage, n) && spec.mutable <= Allowed(spec.stage)
    ensures BucketOk(Inserted(bucket, Registered(spec.priority, n + 1, spec)), spec.stage, n + 1)
  {
    var r := Registered(spec.priority, n + 1, spec);
    assert forall i | 0 <= i < |bucket| :: bucket[i] in bucket;
    InsertedIsSorted(bucket, r);
    InsertedMembers(bucket, r);
  }

  class HookBus {
    const sink: EventSink
    const recorder: Option<Recorder>
    var hooks: map<Stage, Bucket>
    var registrations: nat
    var usage: seq<Usage>                     // what the recorder was called with

    ghost predicate Valid()
      reads this
    {
      forall stage | stage in hooks :: BucketOk(hooks[stage], stage, registrations)
    }

    function BucketOf(stage: Stage): Bucket
      reads this
    {
      if stage in hooks then hooks[stage] else []
    }

    constructor (sink: EventSink, recorder: Option<Recorder>)
      ensures Valid() && this.sink == sink && this.recorder == recorder
      ensures hooks == map[] && registrations == 0 && usage == []
    {
      this.sink, this.recorder := sink, recorder;
      hooks, registrations, usage := map[], 0, [];
    }

    /** The error names the undeclared fields. */
    method Register(spec: Spec) returns (invalid: set<string>)
      requires Valid()
      modifies this
      ensures Valid() && usage == old(usage)
      ensures invalid == spec.mutable - Allowed(spec.stage)
      ensures invalid != {} ==> hooks == old(hooks) && registrations == old(registrations)
      ensures invalid == {} ==>
        && registrations == old(registrations) + 1
        && hooks.Keys == old(hooks).Keys + {spec.stage}
        && (forall s | s != spec.stage :: BucketOf(s) == old(BucketOf(s)))
        && multiset(BucketOf(spec.stage))
             == multiset(old(BucketOf(spec.stage))) + multiset{Registered(spec.priority, registrations, spec)}
    {
      invalid := spec.mutable - Allowed(spec.stage);
      if invalid != {} { return; }
      var bucket := BucketOf(spec.stage);
      var r := Registered(spec.priority, registrations + 1, spec);
      EmptyDifference(spec.mutable, Allowed(spec.stage));
      RegisterKeepsOrder(bucket, spec, registrations);
      InsertedContents(bucket, r);
      SetBucket(spec.stage, Inserted(bucket, r));
    }

    method SetBucket(stage: Stage, bucket: Bucket)
      requires Valid() && BucketOk(bucket, stage, registrations + 1)
      modifies this
      ensures Valid() && usage == old(usage) && registrations == old(registrations) + 1
      ensures hooks == old(hooks)[stage := bucket]
    {
      registrations := registrations + 1;
      hooks := hooks[stage := bucket];
    }

    /** False stands for an escape of the recorder. */
    method RecordAttempt(u: Usage) returns (stayed: bool)
      modifies this`usage
      ensures usage == Charged(recorder, old(usage), [u])
      ensures stayed <==> (recorder.Some? ==> recorder.value(|old(usage)|, u) != Escapes)
    {
      if recorder == None { return true; }
      var call := |usage|;
      usage := usage + [u];
      match recorder.value(call, u)
      case Fine => stayed := true;
      case Raised => stayed := true;                        // swallowed
      case TimedOut => stayed := true;                      // swallowed
      case Escapes => stayed := false;
    }

    /** One turn of the loop body, up to what it decides. */
    method TryHook(spec: Spec, response: Response, current: Invocation) returns (e: Effect)
      ensures e == Attempt(spec, response, current)
    {
      var next, terminal, status, decision := current, PROCEED, "success", PROCEED;
      match response {
        case TimedOut =>
          status := "timeout";
          if spec.mode == FailClosed { terminal := Decision(Reject, map[], TimeoutOf(spec.name)); }
        case Raised(message) =>
          status := "failed";
          if spec.mode == FailClosed { terminal := Decision(Reject, map[], FailureOf(spec.name, Exception(message))); }
        case WrongType(t) =>
          status := "failed";
          if spec.mode == FailClosed { terminal := Decision(Reject, map[], FailureOf(spec.name, NotADecision(t))); }
        case Nothing =>
        case Returned(d) =>
          decision := d;
          if d.kind == Modify {
            var invalid := d.patch.Keys - spec.mutable;
            if invalid != {} {
              status := "failed";
              if spec.mode == FailClosed {
                terminal := Decision(Reject, map[], FailureOf(spec.name, Undeclared(invalid)));
              }
            } else {
              next := Patched(current, d.patch);
            }
          } else if d.kind == Reject || d.kind == Pause {
            terminal := d;
          }
      }
      e := Effect(next, terminal, status, decision);
    }

    // ---- what has been submitted to the observers

    /** These events, and no others, have been added to a memory. */
    ghost predicate Recording(base: seq<Record>, submitted: seq<Event>)
      reads sink
    {
      sink.memory == base + RecordedAll(sink.observers, |base|, submitted)
    }

    ghost predicate Quiet(base: seq<Record>, submitted: seq<Event>)
      reads sink
    {
      ComesThrough(sink.observers, sink.subscribers, |base|, submitted)
    }

    method Append(event: Event) returns (sent: bool)
      modifies sink
      ensures sink.subscribers == old(sink.subscribers)
      ensures sent <==> Passes(sink.observers, sink.subscribers, |old(sink.memory)|, event)
      ensures sink.memory == old(sink.memory)
           + if Answer(sink.observers, |old(sink.memory)|, event) == Escaped then []
             else [Recorded(sink.observers, |old(sink.memory)|, event)]
    {
      var record := sink.Append(event);
      sent := record != None;
    }

    /** `reached` are the events that have reached memory: the last one may not have. */
    method Submit(event: Event, ghost base: seq<Record>, ghost submitted: seq<Event>)
      returns (sent: bool, ghost reached: seq<Event>)
      requires Recording(base, submitted) && Quiet(base, submitted)
      modifies sink
      ensures sink.subscribers == old(sink.subscribers)
      ensures Recording(base, reached) && submitted <= reached <= submitted + [event]
      ensures sent == Quiet(base, submitted + [event]) && (sent ==> reached == submitted + [event])
    {
      RecordedNext(sink.observers, |base|, submitted, event);
      ComesThroughNext(sink.observers, sink.subscribers, |base|, submitted, event);
      ghost var position := |sink.memory|;
      sent := Append(event);
      reached := if Answer(sink.observers, position, event) == Escaped then submitted else submitted + [event];
    }

    method Charge(u: Usage, ghost before: seq<Usage>, ghost usages: seq<Usage>) returns (stayed: bool)
      requires usage == Charged(recorder, before, usages) && RecorderStays(recorder, |before|, usages)
      modifies this`usage
      ensures usage == Charged(recorder, before, usages + [u])
      ensures stayed == RecorderStays(recorder, |before|, usages + [u])
    {
      RecorderStaysNext(recorder, |before|, usages, u);
      stayed := RecordAttempt(u);
      assert before + usages + [u] == before + (usages + [u]);
    }

    /** The usage record and the event of one attempt. */
    method Announce(u: Usage, event: Event, ghost base: seq<Record>, ghost submitted: seq<Event>,
                    ghost before: seq<Usage>, ghost usages: seq<Usage>)
      returns (ok: bool, ghost reached: seq<Event>)
      requires Recording(base, submitted) && Quiet(base, submitted)
      requires usage == Charged(recorder, before, usages) && RecorderStays(recorder, |before|, usages)
      modifies this`usage, sink
      ensures sink.subscribers == old(sink.subscribers)
      ensures Recording(base, reached) && submitted <= reached <= submitted + [event]
      ensures usage == Charged(recorder, before, usages + [u])
      ensures ok == (Quiet(base, submitted + [event]) && RecorderStays(recorder, |before|, usages + [u]))
      ensures ok ==> reached == submitted + [event]
    {
      ok := Charge(u, before, usages);
      reached := submitted;
      if ok { ok, reached := Submit(event, base, submitted); }
    }

    /** One turn of the loop, up to what is announced of it. */
    method Turn(bucket: Bucket, i: nat, current: Invocation, inv: Invocation, answers: Answers, latency: nat -> int,
                ghost o: Outcome, ghost reports: seq<Report>)
      returns (next: Invocation, terminal: Decision, report: Report, u: Usage, event: Event)
      requires i < |bucket| && SameRun(current, inv) && Extends(o, reports, Pipeline(bucket[i..], current, answers))
      ensures SameRun(next, inv) && event == Maker(inv, latency)(report) && u == UsageOf(inv, report)
      ensures reports + [report] <= o.reports
      ensures terminal.kind.Stops() ==> o == Outcome(next, terminal, reports + [report])
      ensures !terminal.kind.Stops() ==>
        terminal == PROCEED && Extends(o, reports + [report], Pipeline(bucket[i + 1..], next, answers))
    {
      var r := bucket[i];
      var e := TryHook(r.spec, answers(r.number, current), current);
      next, terminal, report := e.current, e.terminal, ReportOf(r, e);
      PipelineTurn(o, reports, bucket, i, current, answers, e, report);
      u := Usage(next.runId, r.spec.name, e.status, Name(next.stage));
      event := AttemptFinished(next, report, latency(r.number));
    }

    /** Nothing has been raised by the observers of these reports and of the events up to them. */
    ghost predicate AllQuiet(base: seq<Record>, before: seq<Usage>, inv: Invocation, events: seq<Event>,
                             reports: seq<Report>)
      reads sink
    {
      Quiet(base, events) && RecorderStays(recorder, |before|, UsagesOf(inv, reports))
    }

    /** How far a run has got: with `ok`, everything that these reports call for has been announced and
        nothing raised; otherwise the last announcement has been cut short. */
    ghost predicate Announced(base: seq<Record>, before: seq<Usage>, inv: Invocation, events: seq<Event>,
                              reports: seq<Report>, reached: seq<Event>, ok: bool)
      reads this, sink
    {
      && Recording(base, reached) && reached <= events && (ok ==> reached == events)
      && ok == AllQuiet(base, before, inv, events, reports)
      && usage == Charged(recorder, before, UsagesOf(inv, reports))
    }

    method AnnounceNext(u: Usage, event: Event, ghost base: seq<Record>, ghost before: seq<Usage>,
                        ghost inv: Invocation, ghost events: seq<Event>, ghost reports: seq<Report>,
                        ghost report: Report)
      returns (ok: bool, ghost reached: seq<Event>)
      requires Announced(base, before, inv, events, reports, events, true) && u == UsageOf(inv, report)
      modifies this`usage, sink
      ensures sink.subscribers == old(sink.subscribers)
      ensures Announced(base, before, inv, events + [event], reports + [report], reached, ok)
    {
      UsagesNext(inv, reports, report);
      ok, reached := Announce(u, event, base, events, before, UsagesOf(inv, reports));
    }

    /** The loop over the hooks of a stage, until one ends it or an observer raises. */
    method RunHooks(bucket: Bucket, inv: Invocation, answers: Answers, latency: nat -> int,
                    ghost base: seq<Record>, ghost start: Event)
      returns (ok: bool, current: Invocation, terminal: Decision, reports: seq<Report>,
               ghost events: seq<Event>, ghost reached: seq<Event>)
      requires Announced(base, usage, inv, SoFar(start, Maker(inv, latency), []), [],
                         SoFar(start, Maker(inv, latency), []), true)
      modifies this`usage, sink
      ensures sink.subscribers == old(sink.subscribers) && SameRun(current, inv)
      ensures events == SoFar(start, Maker(inv, latency), reports)
      ensures Announced(base, old(usage), inv, events, reports, reached, ok)
      ensures var outcome := Pipeline(bucket, inv, answers);
              reports <= outcome.reports && (ok ==> outcome == Outcome(current, terminal, reports))
    {
      ok, current, terminal, reports := true, inv, PROCEED, [];
      events := SoFar(start, Maker(inv, latency), []);
      reached := events;
      ghost var outcome, before := Pipeline(bucket, inv, answers), usage;
      var i := 0;
      while i < |bucket| && ok && !terminal.kind.Stops()
        invariant i <= |bucket| && sink.subscribers == old(sink.subscribers)
        invariant SameRun(current, inv) && reports <= outcome.reports
        invariant events == SoFar(start, Maker(inv, latency), reports) && (ok ==> reached == events)
        invariant Announced(base, before, inv, events, reports, reached, ok)
        invariant terminal.kind.Stops() ==> outcome == Outcome(current, terminal, reports)
        invariant !terminal.kind.Stops() ==>
          terminal == PROCEED && Extends(outcome, reports, Pipeline(bucket[i..], current, answers))
      {
        var report, u, event;
        current, terminal, report, u, event := Turn(bucket, i, current, inv, answers, latency, outcome, reports);
        SoFarNext(start, Maker(inv, latency), reports, report);
        ok, reached := AnnounceNext(u, event, base, before, inv, events, reports, report);
        events := events + [event];
        reports := reports + [report];
        i := i + 1;
      }
    }

    /** A run ends as the pipeline says, whatever the observers do, unless one of them escapes or a store
        that returns something unreadable meets a subscriber. `reached` are the events that
        have reached memory. */
    method Run(inv: Invocation, answers: Answers, latency: nat -> int)
      returns (r: RunResult, ghost reached: seq<Event>)
      requires Valid()
      modifies this`usage, sink
      ensures var outcome := Pipeline(BucketOf(inv.stage), inv, answers);
              var events := Submitted(inv, outcome, latency);
              && reached <= events
              && (r == Aborted <==> !Undisturbed(inv, outcome, latency, old(sink.memory), old(usage)))
              && (r.Completed? ==> r.outcome == outcome && reached == events)
              && (r.Completed? ==> usage == Charged(recorder, old(usage), UsagesOf(inv, outcome.reports)))
      ensures sink.memory == old(sink.memory) + RecordedAll(sink.observers, |old(sink.memory)|, reached)
      ensures sink.subscribers == old(sink.subscribers)
    {
      var bucket := BucketOf(inv.stage);
      ghost var base, before := sink.memory, usage;
      ghost var outcome := Pipeline(bucket, inv, answers);
      var sent;
      sent, reached := Open(Started(inv), inv, Maker(inv, latency));
      NeverQuiet(base, before, inv, outcome, [], latency);
      if !sent { return Aborted, reached; }
      var current, terminal, reports;
      ghost var events;
      sent, current, terminal, reports, events, reached := RunHooks(bucket, inv, answers, latency, base, Started(inv));
      NeverQuiet(base, before, inv, outcome, reports, latency);
      if !sent { return Aborted, reached; }
      sent, reached := Finish(current, terminal, reports, inv, latency, base, before, events);
      r := if sent then Completed(Outcome(current, terminal, reports)) else Aborted;
    }

    method Open(start: Event, ghost inv: Invocation, ghost make: Report -> Event)
      returns (sent: bool, ghost reached: seq<Event>)
      modifies sink
      ensures sink.subscribers == old(sink.subscribers)
      ensures Announced(old(sink.memory), usage, inv, SoFar(start, make, []), [], reached, sent)
    {
      ghost var none: seq<Event> := [];
      NothingCharged(inv);
      assert SoFar(start, make, []) == none + [start];
      sent, reached := Submit(start, sink.memory, none);
    }

    method Finish(current: Invocation, terminal: Decision, reports: seq<Report>, ghost inv: Invocation,
                  ghost latency: nat -> int, ghost base: seq<Record>, ghost before: seq<Usage>,
                  ghost events: seq<Event>)
      returns (sent: bool, ghost reached: seq<Event>)
      requires SameRun(current, inv) && events == SoFar(Started(inv), Maker(inv, latency), reports)
      requires Announced(base, before, inv, events, reports, events, true)
      modifies sink
      ensures sink.subscribers == old(sink.subscribers)
      ensures var o := Outcome(current, terminal, reports); var all := Submitted(inv, o, latency);
        && Recording(base, reached) && reached <= all && (sent ==> reached == all)
        && sent == Undisturbed(inv, o, latency, base, before)
    {
      var finish := Finished(current, terminal.kind, Executed(reports));
      assert events + [finish] == Submitted(inv, Outcome(current, terminal, reports), latency);
      sent, reached := Submit(finish, base, events);
    }

    /** The exact condition for a run not to be cut short, by any observer. */
    ghost predicate Undisturbed(inv: Invocation, o: Outcome, latency: nat -> int, memory: seq<Record>, used: seq<Usage>)
      reads sink
    {
      AllQuiet(memory, used, inv, Submitted(inv, o, latency), o.reports)
    }

    lemma NothingCharged(inv: Invocation)
      ensures usage == Charged(recorder, usage, UsagesOf(inv, []))
      ensures RecorderStays(recorder, |usage|, UsagesOf(inv, []))
    {
      assert UsagesOf(inv, []) == [];
    }

    lemma NeverQuiet(base: seq<Record>, before: seq<Usage>, inv: Invocation, outcome: Outcome, reports: seq<Report>,
                     latency: nat -> int)
      requires reports <= outcome.reports
      ensures SoFar(Started(inv), Maker(inv, latency), reports) <= Submitted(inv, outcome, latency)
      ensures Undisturbed(inv, outcome, latency, base, before) ==>
        AllQuiet(base, before, inv, SoFar(Started(inv), Maker(inv, latency), reports), reports)
    {
      var events, all := SoFar(Started(inv), Maker(inv, latency), reports), Submitted(inv, outcome, latency);
      assert forall i | 0 <= i < |events| :: events[i] == all[i];
      assert forall i | 0 <= i < |reports| :: UsagesOf(inv, reports)[i] == UsagesOf(inv, outcome.reports)[i];
    }

    /** The invocation as the hooks leave it, if they let it pass. */
    method Enforce(inv: Invocation, answers: Answers, latency: nat -> int) returns (v: Verdict)
      requires Valid()
      modifies this`usage, sink
      ensures var o := Pipeline(BucketOf(inv.stage), inv, answers);
              v == if Undisturbed(inv, o, latency, old(sink.memory), old(usage)) then VerdictOf(o) else Broken
    {
      var r, _ := Run(inv, answers, latency);
      v := if r == Aborted then Broken
           else if r.outcome.decision.kind == Reject then HookRejected(r.outcome.decision.reason)
           else if r.outcome.decision.kind == Pause then HookPaused(r.outcome.decision.reason)
           else Passed(r.outcome.invocation);
    }
  }
}
